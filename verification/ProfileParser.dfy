/** The hardware-profile parser (urf-config.c): handlers that keep two counters
    and one option slot instead of a stack, and what they compute.

    The event stream comes from the XML parser: elements are well nested, and a
    text may arrive cut into any number of chunks. */
module ProfileParser {
  import opened Common
  import M = MatchRule

  datatype Options = Options(
    keyControl: bool, masterKey: bool, forceSync: bool, persist: bool, strictFlightMode: bool)

  datatype Opt = OptNone | OptKeyControl | OptMasterKey | OptForceSync | OptPersist | OptStrictFlightMode | OptUnknown

  datatype OptType = OptTypeNone | OptTypeBoolean | OptTypeUnknown

  /** The DMI strings of this machine; a missing one is None. */
  datatype DmiInfo = DmiInfo(
    sysVendor: Option<string>, biosDate: Option<string>, biosVendor: Option<string>,
    biosVersion: Option<string>, productName: Option<string>, productVersion: Option<string>)

  // ---------- Names ----------

  function GetOption(option: Option<string>): Opt {
    if option == Some("key_control") then OptKeyControl
    else if option == Some("master_key") then OptMasterKey
    else if option == Some("force_sync") then OptForceSync
    else if option == Some("persist") then OptPersist
    else if option == Some("strict_flight_mode") then OptStrictFlightMode
    else OptUnknown
  }

  function GetOptionType(typ: Option<string>): OptType {
    if typ == Some("bool") then OptTypeBoolean else OptTypeUnknown
  }

  function GetMatchKey(hardware: Option<DmiInfo>, key: Option<string>): Option<string> {
    if hardware.None? then None
    else if key == Some("sys_vendor") then hardware.value.sysVendor
    else if key == Some("bios_date") then hardware.value.biosDate
    else if key == Some("bios_vendor") then hardware.value.biosVendor
    else if key == Some("bios_version") then hardware.value.biosVersion
    else if key == Some("product_name") then hardware.value.productName
    else if key == Some("product_version") then hardware.value.productVersion
    else None
  }

  function GetOperator(name: string): M.Operator {
    if name == "string" then M.Whole
    else if name == "string_outof" then M.WholeOutof
    else if name == "contains" then M.Contains
    else if name == "contains_ncase" then M.ContainsNcase
    else if name == "contains_not" then M.ContainsNot
    else if name == "contains_outof" then M.ContainsOutof
    else if name == "prefix" then M.Prefix
    else if name == "prefix_ncase" then M.PrefixNcase
    else if name == "prefix_outof" then M.PrefixOutof
    else if name == "suffix" then M.Suffix
    else if name == "suffix_ncase" then M.SuffixNcase
    else if name == "suffix_outof" then M.SuffixOutof
    else M.Unknown
  }

  // ---------- Attributes: a flat list, names and values alternating ----------

  datatype MatchAtts = MatchAtts(key: Option<string>, operator: M.Operator, body: Option<string>)

  const NO_MATCH_ATTS := MatchAtts(None, M.Whole, None)

  /** The scan over a match element's attributes from position i on.  It skips a
      value only after a name it knows. */
  function ScanMatch(atts: seq<string>, i: nat, m: MatchAtts): MatchAtts
    decreases |atts| - i
  {
    if i >= |atts| then m
    else if atts[i] == "key" then
      if i + 1 < |atts| then ScanMatch(atts, i + 2, m.(key := Some(atts[i + 1]))) else ScanMatch(atts, i + 1, m)
    else
      var n := m.(operator := GetOperator(atts[i]));
      if n.operator != M.Unknown && i + 1 < |atts|
      then ScanMatch(atts, i + 2, n.(body := Some(atts[i + 1])))
      else ScanMatch(atts, i + 1, n)
  }

  datatype OptionAtts = OptionAtts(key: Option<string>, typ: Option<string>)

  function ScanOption(atts: seq<string>, i: nat, m: OptionAtts): OptionAtts
    decreases |atts| - i
  {
    if i >= |atts| then m
    else if atts[i] == "key" && i + 1 < |atts| then ScanOption(atts, i + 2, m.(key := Some(atts[i + 1])))
    else if atts[i] == "type" && i + 1 < |atts| then ScanOption(atts, i + 2, m.(typ := Some(atts[i + 1])))
    else ScanOption(atts, i + 1, m)
  }

  // ---------- One element ----------

  /** The string a match element tests, if its key names one this machine has. */
  function Subject(hardware: Option<DmiInfo>, atts: seq<string>): Option<string> {
    GetMatchKey(hardware, ScanMatch(atts, 0, NO_MATCH_ATTS).key)
  }

  /** A match element that tests something has a rule to test it against; without
      one the code would read through a null pointer. */
  predicate Sound(hardware: Option<DmiInfo>, name: string, atts: seq<string>) {
    name == "match" && Subject(hardware, atts).Some? ==> ScanMatch(atts, 0, NO_MATCH_ATTS).body.Some?
  }

  predicate Accepted(hardware: Option<DmiInfo>, name: string, atts: seq<string>)
    requires Sound(hardware, name, atts)
  {
    name == "match" && Subject(hardware, atts).Some? ==>
      var m := ScanMatch(atts, 0, NO_MATCH_ATTS);
      M.Matches(Subject(hardware, atts).value, m.operator, m.body.value)
  }

  /** The option an element's own text sets. */
  function Slot(name: string, atts: seq<string>): Opt {
    if name == "option" then GetOption(ScanOption(atts, 0, OptionAtts(None, None)).key) else OptNone
  }

  function SlotType(name: string, atts: seq<string>): OptType {
    if name == "option" then GetOptionType(ScanOption(atts, 0, OptionAtts(None, None)).typ) else OptTypeNone
  }

  /** What a text says: true or false in any case, or nothing. */
  function Word(text: string): Option<bool> {
    if M.Lower(text) == "true" then Some(true)
    else if M.Lower(text) == "false" then Some(false)
    else None
  }

  function Assign(o: Options, opt: Opt, value: bool): Options {
    match opt
    case OptKeyControl => o.(keyControl := value)
    case OptMasterKey => o.(masterKey := value)
    case OptForceSync => o.(forceSync := value)
    case OptPersist => o.(persist := value)
    case OptStrictFlightMode => o.(strictFlightMode := value)
    case _ => o
  }

  function ApplyText(o: Options, opt: Opt, text: string): Options {
    if Word(text).Some? then Assign(o, opt, Word(text).value) else o
  }

  // ---------- The handlers ----------

  datatype ParseState = ParseState(depth: int, bound: int, opt: Opt, optType: OptType, options: Options)

  function Initial(o: Options): ParseState {
    ParseState(0, 1, OptNone, OptTypeNone, o)
  }

  datatype XmlEvent = Start(name: string, atts: seq<string>) | End | Chunk(text: string)

  function OnStart(hardware: Option<DmiInfo>, p: ParseState, name: string, atts: seq<string>): ParseState
    requires Sound(hardware, name, atts)
  {
    var d := p.depth + 1;
    if d > p.bound then p.(depth := d)
    else
      var b := if d < p.bound then d + 1 else p.bound;
      if Accepted(hardware, name, atts)
      then ParseState(d, b + 1, Slot(name, atts), SlotType(name, atts), p.options)
      else ParseState(d, b, OptNone, OptTypeNone, p.options)
  }

  function OnEnd(p: ParseState): ParseState {
    ParseState(p.depth - 1, if p.bound > p.depth then p.depth else p.bound, OptNone, OptTypeNone, p.options)
  }

  function OnChunk(p: ParseState, text: string): ParseState {
    p.(options := ApplyText(p.options, p.opt, text))
  }

  predicate EventSound(hardware: Option<DmiInfo>, ev: XmlEvent) {
    ev.Start? ==> Sound(hardware, ev.name, ev.atts)
  }

  function Handle(hardware: Option<DmiInfo>, p: ParseState, ev: XmlEvent): ParseState
    requires EventSound(hardware, ev)
  {
    match ev
    case Start(name, atts) => OnStart(hardware, p, name, atts)
    case End => OnEnd(p)
    case Chunk(text) => OnChunk(p, text)
  }

  ghost predicate AllSound(hardware: Option<DmiInfo>, evs: seq<XmlEvent>) {
    forall i :: 0 <= i < |evs| ==> EventSound(hardware, evs[i])
  }

  function HandleAll(hardware: Option<DmiInfo>, p: ParseState, evs: seq<XmlEvent>): ParseState
    requires AllSound(hardware, evs)
    decreases |evs|
  {
    if evs == [] then p else HandleAll(hardware, Handle(hardware, p, evs[0]), evs[1..])
  }

  // ---------- Reference: evaluation of the document tree ----------

  /** A text comes with the chunks it is delivered in. */
  datatype Node = Text(chunks: seq<string>) | Element(name: string, atts: seq<string>, children: seq<Node>)

  ghost predicate NodeSound(hardware: Option<DmiInfo>, n: Node) {
    n.Element? ==> Sound(hardware, n.name, n.atts) && ListSound(hardware, n.children)
  }

  ghost predicate ListSound(hardware: Option<DmiInfo>, ns: seq<Node>) {
    forall n :: n in ns ==> NodeSound(hardware, n)
  }

  function ApplyChunks(o: Options, opt: Opt, chunks: seq<string>): Options
    decreases |chunks|
  {
    if chunks == [] then o else ApplyChunks(ApplyText(o, opt, chunks[0]), opt, chunks[1..])
  }

  /** The chunks of an element's own text, as far as its first child element. */
  function LeadingText(children: seq<Node>): seq<string> {
    if children == [] || children[0].Element? then [] else children[0].chunks + LeadingText(children[1..])
  }

  /** An accepted element sets the option its leading text gives, then its child
      elements are evaluated in order; a rejected element does nothing. */
  function Evaluate(hardware: Option<DmiInfo>, o: Options, e: Node): Options
    requires e.Element? && NodeSound(hardware, e)
    decreases e, 0
  {
    if Accepted(hardware, e.name, e.atts)
    then EvaluateAll(hardware, ApplyChunks(o, Slot(e.name, e.atts), LeadingText(e.children)), e.children)
    else o
  }

  /** Evaluates the elements of a list; texts between them do nothing. */
  function EvaluateAll(hardware: Option<DmiInfo>, o: Options, ns: seq<Node>): Options
    requires ListSound(hardware, ns)
    decreases ns, 1
  {
    if ns == [] then o
    else EvaluateAll(hardware, if ns[0].Element? then Evaluate(hardware, o, ns[0]) else o, ns[1..])
  }

  // ---------- Flattening a tree into events ----------

  function Chunks(chunks: seq<string>): seq<XmlEvent> {
    if chunks == [] then [] else [Chunk(chunks[0])] + Chunks(chunks[1..])
  }

  function Flatten(n: Node): seq<XmlEvent>
    decreases n, 0
  {
    match n
    case Text(chunks) => Chunks(chunks)
    case Element(name, atts, children) => [Start(name, atts)] + FlattenAll(children) + [End]
  }

  function FlattenAll(ns: seq<Node>): seq<XmlEvent>
    decreases ns, 1
  {
    if ns == [] then [] else Flatten(ns[0]) + FlattenAll(ns[1..])
  }

  // ---------- The handlers compute the evaluation ----------

  /** All elements around the current position are accepted. */
  predicate Active(p: ParseState) {
    p.bound == p.depth + 1
  }

  predicate Wellformed(p: ParseState) {
    1 <= p.bound <= p.depth + 1 && (!Active(p) ==> p.opt == OptNone && p.optType == OptTypeNone)
  }

  function Cleared(p: ParseState): ParseState {
    p.(opt := OptNone, optType := OptTypeNone)
  }

  lemma {:induction false} HandleConcat(hardware: Option<DmiInfo>, p: ParseState, a: seq<XmlEvent>, b: seq<XmlEvent>)
    requires AllSound(hardware, a) && AllSound(hardware, b)
    ensures AllSound(hardware, a + b)
    ensures HandleAll(hardware, p, a + b) == HandleAll(hardware, HandleAll(hardware, p, a), b)
    decreases |a|
  {
    if a == [] {
      assert a + b == b;
    } else {
      assert EventSound(hardware, a[0]);
      HandleConcat(hardware, Handle(hardware, p, a[0]), a[1..], b);
      assert (a + b)[1..] == a[1..] + b;
    }
  }

  lemma {:induction false} ApplyConcat(o: Options, opt: Opt, a: seq<string>, b: seq<string>)
    ensures ApplyChunks(o, opt, a + b) == ApplyChunks(ApplyChunks(o, opt, a), opt, b)
    decreases |a|
  {
    if a == [] {
      assert a + b == b;
    } else {
      assert (a + b)[1..] == a[1..] + b;
      ApplyConcat(ApplyText(o, opt, a[0]), opt, a[1..], b);
    }
  }

  /** Text outside an option does nothing. */
  lemma {:induction false} ApplyNowhere(o: Options, chunks: seq<string>)
    ensures ApplyChunks(o, OptNone, chunks) == o
  {
    if chunks == [] {
    } else {
      ApplyNowhere(o, chunks[1..]);
    }
  }

  lemma {:induction false} ChunksEffect(hardware: Option<DmiInfo>, p: ParseState, chunks: seq<string>)
    ensures AllSound(hardware, Chunks(chunks))
    ensures HandleAll(hardware, p, Chunks(chunks)) == p.(options := ApplyChunks(p.options, p.opt, chunks))
    decreases |chunks|
  {
    if chunks == [] {
    } else {
      var evs := Chunks(chunks);
      assert evs[1..] == Chunks(chunks[1..]);
      ChunksEffect(hardware, OnChunk(p, chunks[0]), chunks[1..]);
    }
  }

  predicate HasElement(ns: seq<Node>) {
    exists n :: n in ns && n.Element?
  }

  /** What a list of nodes does to the parser between two tags of its parent. */
  function ListEffect(hardware: Option<DmiInfo>, p: ParseState, ns: seq<Node>): ParseState
    requires ListSound(hardware, ns)
  {
    var q := if HasElement(ns) then Cleared(p) else p;
    if Active(p)
    then q.(options := EvaluateAll(hardware, ApplyChunks(p.options, p.opt, LeadingText(ns)), ns))
    else q
  }

  lemma SingleEvent(hardware: Option<DmiInfo>, p: ParseState, ev: XmlEvent)
    requires EventSound(hardware, ev)
    ensures AllSound(hardware, [ev]) && HandleAll(hardware, p, [ev]) == Handle(hardware, p, ev)
  {
    assert [ev][1..] == [];
  }

  /** A complete element returns both counters to their entry values, empties the
      slot, and changes the options as the evaluation says, if it is reached at all. */
  lemma {:induction false} ElementEffect(hardware: Option<DmiInfo>, p: ParseState, e: Node)
    requires e.Element? && NodeSound(hardware, e) && Wellformed(p)
    ensures AllSound(hardware, Flatten(e))
    ensures HandleAll(hardware, p, Flatten(e))
         == Cleared(p).(options := if Active(p) then Evaluate(hardware, p.options, e) else p.options)
    decreases e, 0
  {
    var start := Start(e.name, e.atts);
    var q := OnStart(hardware, p, e.name, e.atts);
    SingleEvent(hardware, p, start);
    FlattenEffect(hardware, q, e.children);
    HandleConcat(hardware, p, [start], FlattenAll(e.children));
    var r := HandleAll(hardware, q, FlattenAll(e.children));
    SingleEvent(hardware, r, End);
    HandleConcat(hardware, p, [start] + FlattenAll(e.children), [End]);
  }

  lemma {:induction false} FlattenEffect(hardware: Option<DmiInfo>, p: ParseState, ns: seq<Node>)
    requires ListSound(hardware, ns) && Wellformed(p)
    ensures AllSound(hardware, FlattenAll(ns))
    ensures HandleAll(hardware, p, FlattenAll(ns)) == ListEffect(hardware, p, ns)
    decreases ns, 1
  {
    if ns != [] {
      assert NodeSound(hardware, ns[0]);
      assert HasElement(ns) == (ns[0].Element? || HasElement(ns[1..]));
      match ns[0]
      case Text(chunks) =>
        ChunksEffect(hardware, p, chunks);
        var q := p.(options := ApplyChunks(p.options, p.opt, chunks));
        ApplyConcat(p.options, p.opt, chunks, LeadingText(ns[1..]));
        if !Active(p) {
          ApplyNowhere(p.options, chunks);
        }
        FlattenEffect(hardware, q, ns[1..]);
        HandleConcat(hardware, p, Chunks(chunks), FlattenAll(ns[1..]));
      case Element(_, _, _) =>
        ElementEffect(hardware, p, ns[0]);
        var q := HandleAll(hardware, p, Flatten(ns[0]));
        ApplyNowhere(q.options, LeadingText(ns[1..]));
        FlattenEffect(hardware, q, ns[1..]);
        HandleConcat(hardware, p, Flatten(ns[0]), FlattenAll(ns[1..]));
    } else {
      assert !HasElement(ns);
    }
  }

  /** Parsing a document gives the options its tree evaluates to. */
  lemma ParserEvaluates(hardware: Option<DmiInfo>, o: Options, root: Node)
    requires root.Element? && NodeSound(hardware, root)
    ensures AllSound(hardware, Flatten(root))
    ensures HandleAll(hardware, Initial(o), Flatten(root)) == Initial(Evaluate(hardware, o, root))
  {
    ElementEffect(hardware, Initial(o), root);
  }

  // ---------- The two counters are a stack ----------

  /** The open elements, outermost first: whether each is accepted. */
  function Push(hardware: Option<DmiInfo>, stack: seq<bool>, ev: XmlEvent): seq<bool>
    requires EventSound(hardware, ev)
  {
    match ev
    case Start(name, atts) => stack + [Accepted(hardware, name, atts)]
    case End => if stack == [] then [] else stack[..|stack| - 1]
    case Chunk(_) => stack
  }

  function PushAll(hardware: Option<DmiInfo>, stack: seq<bool>, evs: seq<XmlEvent>): seq<bool>
    requires AllSound(hardware, evs)
    decreases |evs|
  {
    if evs == [] then stack else PushAll(hardware, Push(hardware, stack, evs[0]), evs[1..])
  }

  /** No element ends that is not open. */
  predicate Nested(depth: nat, evs: seq<XmlEvent>)
    decreases |evs|
  {
    evs == []
    || match evs[0]
       case Start(_, _) => Nested(depth + 1, evs[1..])
       case End => depth > 0 && Nested(depth - 1, evs[1..])
       case Chunk(_) => Nested(depth, evs[1..])
  }

  /** depth counts the open elements, bound - 1 the accepted ones from the outside
      in, up to the first rejected one; the slot is empty below a rejected element. */
  ghost predicate Represents(p: ParseState, stack: seq<bool>) {
    && p.depth == |stack|
    && 1 <= p.bound <= p.depth + 1
    && (forall i :: 0 <= i < p.bound - 1 ==> stack[i])
    && (p.bound <= |stack| ==> !stack[p.bound - 1] && p.opt == OptNone && p.optType == OptTypeNone)
  }

  lemma HandleRepresents(hardware: Option<DmiInfo>, p: ParseState, stack: seq<bool>, ev: XmlEvent)
    requires EventSound(hardware, ev) && Represents(p, stack) && (ev.End? ==> stack != [])
    ensures Represents(Handle(hardware, p, ev), Push(hardware, stack, ev))
  {
  }

  lemma {:induction false} RunRepresents(hardware: Option<DmiInfo>, p: ParseState, stack: seq<bool>, evs: seq<XmlEvent>)
    requires AllSound(hardware, evs) && Nested(|stack|, evs) && Represents(p, stack)
    ensures Represents(HandleAll(hardware, p, evs), PushAll(hardware, stack, evs))
    decreases |evs|
  {
    if evs == [] {
    } else {
      assert EventSound(hardware, evs[0]);
      HandleRepresents(hardware, p, stack, evs[0]);
      RunRepresents(hardware, Handle(hardware, p, evs[0]), Push(hardware, stack, evs[0]), evs[1..]);
    }
  }

  lemma ActiveMeansAllAccepted(p: ParseState, stack: seq<bool>)
    requires Represents(p, stack)
    ensures Active(p) <==> forall i :: 0 <= i < |stack| ==> stack[i]
  {
    if !Active(p) {
      assert !stack[p.bound - 1];
    }
  }

  /** After every well-nested stream, so after every prefix of a document, the
      counters represent the stack of open elements: the position is active
      exactly when all of them are accepted, and the repair of bound in the start
      handler is out of reach. */
  lemma CountersAreAStack(hardware: Option<DmiInfo>, o: Options, evs: seq<XmlEvent>)
    requires AllSound(hardware, evs) && Nested(0, evs)
    ensures var q, stack := HandleAll(hardware, Initial(o), evs), PushAll(hardware, [], evs);
      && Represents(q, stack)
      && (Active(q) <==> forall i :: 0 <= i < |stack| ==> stack[i])
      && (!Active(q) ==> q.opt == OptNone)
      && !(q.depth + 1 < q.bound)
  {
    RunRepresents(hardware, Initial(o), [], evs);
    ActiveMeansAllAccepted(HandleAll(hardware, Initial(o), evs), PushAll(hardware, [], evs));
  }

  // ---------- How a text is cut ----------

  function Concat(chunks: seq<string>): string {
    if chunks == [] then "" else chunks[0] + Concat(chunks[1..])
  }

  ghost predicate HasWord(text: string) {
    exists i, j :: 0 <= i <= j <= |text| && Word(text[i..j]).Some?
  }

  /** However the text is cut, its chunks set what the whole text sets. */
  ghost predicate CutFreely(text: string) {
    forall chunks, o, opt :: Concat(chunks) == text ==> ApplyChunks(o, opt, chunks) == ApplyText(o, opt, text)
  }

  lemma {:induction false} WordlessChunks(o: Options, opt: Opt, chunks: seq<string>)
    requires !HasWord(Concat(chunks))
    ensures ApplyChunks(o, opt, chunks) == o
    decreases |chunks|
  {
    if chunks == [] {
    } else {
      var text, rest := Concat(chunks), Concat(chunks[1..]);
      assert text[0..|chunks[0]|] == chunks[0];
      forall i, j | 0 <= i <= j <= |rest| ensures Word(rest[i..j]).None? {
        assert rest[i..j] == text[i + |chunks[0]|..j + |chunks[0]|];
      }
      WordlessChunks(o, opt, chunks[1..]);
    }
  }

  const NO_OPTIONS := Options(false, false, false, false, false)

  lemma Concat2(a: string, b: string)
    ensures Concat([a, b]) == a + b
  {
    assert [a, b][1..] == [b] && [b][1..] == [];
    assert Concat([b]) == b + Concat([]);
  }

  /** A word cut after its first letter is no word any more. */
  lemma CutWord(text: string)
    requires Word(text).Some?
    ensures var chunks := [text[..1], text[1..]];
      Concat(chunks) == text && forall o, opt :: ApplyChunks(o, opt, chunks) == o
  {
    var chunks := [text[..1], text[1..]];
    assert chunks[1..] == [text[1..]] && chunks[1..][1..] == [];
    Concat2(text[..1], text[1..]);
    assert |M.Lower(text)| == |text| && |M.Lower(text[1..])| == |text| - 1 && |M.Lower(text[..1])| == 1;
    assert M.Lower(text[1..])[0] == M.Lower(text)[1];
    assert Word(text[..1]).None? && Word(text[1..]).None?;
    forall o, opt ensures ApplyChunks(o, opt, chunks) == o {
      assert ApplyChunks(o, opt, chunks) == ApplyChunks(o, opt, chunks[1..]) == ApplyChunks(o, opt, []);
    }
  }

  /** A word inside a longer text comes out if the text is cut around it. */
  lemma CutAround(text: string, i: nat, j: nat)
    requires i <= j <= |text| && Word(text[i..j]).Some?
    ensures var chunks := [text[..i], text[i..j], text[j..]];
      && Concat(chunks) == text
      && exists o :: ApplyChunks(o, OptKeyControl, chunks) != o
  {
    var chunks := [text[..i], text[i..j], text[j..]];
    assert chunks[1..] == [text[i..j], text[j..]] && chunks[1..][1..] == [text[j..]] && chunks[1..][1..][1..] == [];
    Concat2(text[i..j], text[j..]);
    assert text[..i] + (text[i..j] + text[j..]) == text;
    var last := if Word(text[j..]).Some? then Word(text[j..]).value else Word(text[i..j]).value;
    var o := NO_OPTIONS.(keyControl := !last);
    var a := ApplyText(o, OptKeyControl, text[..i]);
    var b := ApplyText(a, OptKeyControl, text[i..j]);
    var c := ApplyText(b, OptKeyControl, text[j..]);
    assert ApplyChunks(o, OptKeyControl, chunks) == ApplyChunks(a, OptKeyControl, chunks[1..])
        == ApplyChunks(b, OptKeyControl, chunks[1..][1..]) == ApplyChunks(c, OptKeyControl, []) == c;
    assert c.keyControl == last;
  }

  /** Cutting a text never matters exactly when no part of it reads true or false. */
  lemma CutFreelyWhenWordless(text: string)
    ensures CutFreely(text) <==> !HasWord(text)
  {
    if !HasWord(text) {
      assert text[0..|text|] == text;
      forall chunks, o, opt | Concat(chunks) == text ensures ApplyChunks(o, opt, chunks) == ApplyText(o, opt, text) {
        WordlessChunks(o, opt, chunks);
      }
    } else if Word(text).Some? {
      CutWord(text);
      var o := NO_OPTIONS.(keyControl := !Word(text).value);
      assert ApplyChunks(o, OptKeyControl, [text[..1], text[1..]]) != ApplyText(o, OptKeyControl, text);
    } else {
      var i, j :| 0 <= i <= j <= |text| && Word(text[i..j]).Some?;
      CutAround(text, i, j);
      var chunks := [text[..i], text[i..j], text[j..]];
      var o :| ApplyChunks(o, OptKeyControl, chunks) != o;
      assert ApplyChunks(o, OptKeyControl, chunks) != ApplyText(o, OptKeyControl, text);
    }
  }

  /** The same document with every text delivered in one chunk. */
  function Merge(n: Node): Node
    decreases n, 0
  {
    match n
    case Text(chunks) => Text([Concat(chunks)])
    case Element(name, atts, children) => Element(name, atts, MergeAll(children))
  }

  function MergeAll(ns: seq<Node>): seq<Node>
    decreases ns, 1
  {
    if ns == [] then [] else [Merge(ns[0])] + MergeAll(ns[1..])
  }

  /** Only texts without a word in them come in more or less than one chunk. */
  ghost predicate Uncut(n: Node) {
    match n
    case Text(chunks) => |chunks| == 1 || !HasWord(Concat(chunks))
    case Element(_, _, children) => AllUncut(children)
  }

  ghost predicate AllUncut(ns: seq<Node>) {
    forall n :: n in ns ==> Uncut(n)
  }

  lemma UncutText(o: Options, opt: Opt, chunks: seq<string>)
    requires Uncut(Text(chunks))
    ensures ApplyChunks(o, opt, [Concat(chunks)]) == ApplyChunks(o, opt, chunks)
  {
    assert [Concat(chunks)][1..] == [];
    if |chunks| == 1 {
      assert chunks[1..] == [] && Concat(chunks) == chunks[0] + Concat([]) == chunks[0];
    } else {
      CutFreelyWhenWordless(Concat(chunks));
    }
  }

  lemma {:induction false} MergeLeading(o: Options, opt: Opt, ns: seq<Node>)
    requires AllUncut(ns)
    ensures ApplyChunks(o, opt, LeadingText(MergeAll(ns))) == ApplyChunks(o, opt, LeadingText(ns))
    decreases |ns|
  {
    if ns == [] || !ns[0].Text? {
    } else {
      var chunks := ns[0].chunks;
      assert Uncut(ns[0]) && MergeAll(ns)[1..] == MergeAll(ns[1..]);
      ApplyConcat(o, opt, chunks, LeadingText(ns[1..]));
      ApplyConcat(o, opt, [Concat(chunks)], LeadingText(MergeAll(ns[1..])));
      UncutText(o, opt, chunks);
      MergeLeading(ApplyChunks(o, opt, chunks), opt, ns[1..]);
    }
  }

  /** If words arrive whole, the document's value depends on its texts alone. */
  lemma {:induction false} MergeKeepsValue(hardware: Option<DmiInfo>, o: Options, e: Node)
    requires e.Element? && NodeSound(hardware, e) && Uncut(e)
    ensures NodeSound(hardware, Merge(e)) && Evaluate(hardware, o, Merge(e)) == Evaluate(hardware, o, e)
    decreases e, 0
  {
    MergeLeading(o, Slot(e.name, e.atts), e.children);
    MergeAllKeepsValue(hardware, ApplyChunks(o, Slot(e.name, e.atts), LeadingText(e.children)), e.children);
  }

  lemma {:induction false} MergeAllKeepsValue(hardware: Option<DmiInfo>, o: Options, ns: seq<Node>)
    requires ListSound(hardware, ns) && AllUncut(ns)
    ensures ListSound(hardware, MergeAll(ns)) && EvaluateAll(hardware, o, MergeAll(ns)) == EvaluateAll(hardware, o, ns)
    decreases ns, 1
  {
    if ns == [] {
    } else {
      assert NodeSound(hardware, ns[0]) && Uncut(ns[0]) && MergeAll(ns)[1..] == MergeAll(ns[1..]);
      if ns[0].Element? {
        MergeKeepsValue(hardware, o, ns[0]);
      }
      MergeAllKeepsValue(hardware, if ns[0].Element? then Evaluate(hardware, o, ns[0]) else o, ns[1..]);
    }
  }

  /** However the parser cuts a document whose words arrive whole, the result is
      the evaluation of its tree with undivided texts. */
  lemma CutsDoNotMatter(hardware: Option<DmiInfo>, o: Options, root: Node)
    requires root.Element? && NodeSound(hardware, root) && Uncut(root)
    ensures AllSound(hardware, Flatten(root)) && NodeSound(hardware, Merge(root))
    ensures HandleAll(hardware, Initial(o), Flatten(root)).options == Evaluate(hardware, o, Merge(root))
  {
    ParserEvaluates(hardware, o, root);
    MergeKeepsValue(hardware, o, root);
  }

  // ---------- Every prefix of a document is well nested ----------

  lemma {:induction false} ChunksNested(depth: nat, chunks: seq<string>, rest: seq<XmlEvent>)
    ensures Nested(depth, Chunks(chunks) + rest) <==> Nested(depth, rest)
  {
    if chunks == [] {
      assert Chunks(chunks) + rest == rest;
    } else {
      assert (Chunks(chunks) + rest)[1..] == Chunks(chunks[1..]) + rest;
      ChunksNested(depth, chunks[1..], rest);
    }
  }

  lemma {:induction false} FlattenNested(depth: nat, n: Node, rest: seq<XmlEvent>)
    ensures Nested(depth, Flatten(n) + rest) <==> Nested(depth, rest)
    decreases n, 0
  {
    match n
    case Text(chunks) => ChunksNested(depth, chunks, rest);
    case Element(name, atts, children) =>
      assert (Flatten(n) + rest)[1..] == FlattenAll(children) + ([End] + rest);
      assert ([End] + rest)[1..] == rest;
      FlattenAllNested(depth + 1, children, [End] + rest);
  }

  lemma {:induction false} FlattenAllNested(depth: nat, ns: seq<Node>, rest: seq<XmlEvent>)
    ensures Nested(depth, FlattenAll(ns) + rest) <==> Nested(depth, rest)
    decreases ns, 1
  {
    if ns == [] {
      assert FlattenAll(ns) + rest == rest;
    } else {
      assert FlattenAll(ns) + rest == Flatten(ns[0]) + (FlattenAll(ns[1..]) + rest);
      FlattenNested(depth, ns[0], FlattenAll(ns[1..]) + rest);
      FlattenAllNested(depth, ns[1..], rest);
    }
  }

  lemma {:induction false} NestedPrefix(depth: nat, evs: seq<XmlEvent>, n: nat)
    requires Nested(depth, evs) && n <= |evs|
    ensures Nested(depth, evs[..n])
    decreases |evs|
  {
    if n == 0 {
    } else {
      assert evs[..n][1..] == evs[1..][..n - 1];
      match evs[0]
      case Start(_, _) => NestedPrefix(depth + 1, evs[1..], n - 1);
      case End => NestedPrefix(depth - 1, evs[1..], n - 1);
      case Chunk(_) => NestedPrefix(depth, evs[1..], n - 1);
    }
  }

  lemma DocumentPrefixNested(root: Node, n: nat)
    requires n <= |Flatten(root)|
    ensures Nested(0, Flatten(root)[..n])
  {
    FlattenNested(0, root, []);
    assert Flatten(root) + [] == Flatten(root);
    NestedPrefix(0, Flatten(root), n);
  }

  // ---------- Attribute lists ----------

  function Flat(pairs: seq<(string, string)>): seq<string> {
    if pairs == [] then [] else [pairs[0].0, pairs[0].1] + Flat(pairs[1..])
  }

  predicate MatchName(name: string) {
    name == "key" || GetOperator(name) != M.Unknown
  }

  function TakePair(m: MatchAtts, pair: (string, string)): MatchAtts {
    if pair.0 == "key" then m.(key := Some(pair.1))
    else m.(operator := GetOperator(pair.0), body := Some(pair.1))
  }

  function TakePairs(m: MatchAtts, pairs: seq<(string, string)>): MatchAtts
    decreases |pairs|
  {
    if pairs == [] then m else TakePairs(TakePair(m, pairs[0]), pairs[1..])
  }

  lemma {:induction false} ScanShift(atts: seq<string>, i: nat, m: MatchAtts)
    requires i <= |atts|
    ensures ScanMatch(atts, i, m) == ScanMatch(atts[i..], 0, m)
    decreases |atts| - i
  {
    if |atts| <= i {
    } else {
      var rest := atts[i..];
      var n := if atts[i] == "key" then m else m.(operator := GetOperator(atts[i]));
      if MatchName(atts[i]) && i + 1 < |atts| {
        var v := if atts[i] == "key" then m.(key := Some(atts[i + 1])) else n.(body := Some(atts[i + 1]));
        ScanShift(atts, i + 2, v);
        ScanShift(rest, 2, v);
        assert rest[2..] == atts[i + 2..];
      } else {
        ScanShift(atts, i + 1, n);
        ScanShift(rest, 1, n);
        assert rest[1..] == atts[i + 1..];
      }
    }
  }

  /** On attributes the scan knows it reads one pair after another: of several
      keys, and of several rules, the last one counts. */
  lemma {:induction false} ScanReadsPairs(pairs: seq<(string, string)>, m: MatchAtts, rest: seq<string>)
    requires forall p :: p in pairs ==> MatchName(p.0)
    ensures ScanMatch(Flat(pairs) + rest, 0, m) == ScanMatch(rest, 0, TakePairs(m, pairs))
    decreases |pairs|
  {
    var atts := Flat(pairs) + rest;
    if pairs == [] {
      assert atts == rest;
    } else {
      assert pairs[0] in pairs;
      assert atts[0] == pairs[0].0 && atts[1] == pairs[0].1;
      assert atts[2..] == Flat(pairs[1..]) + rest;
      ScanShift(atts, 2, TakePair(m, pairs[0]));
      ScanReadsPairs(pairs[1..], TakePair(m, pairs[0]), rest);
    }
  }

  /** A match element with a key and one rule, in either order, is accepted
      unless this machine has a string for the key that fails the rule. */
  lemma OneRule(hardware: Option<DmiInfo>, key: string, name: string, body: string, keyFirst: bool)
    requires GetOperator(name) != M.Unknown
    ensures var atts := Flat(if keyFirst then [("key", key), (name, body)] else [(name, body), ("key", key)]);
      var subject := GetMatchKey(hardware, Some(key));
      && Sound(hardware, "match", atts)
      && (Accepted(hardware, "match", atts) <==> subject.Some? ==> M.Matches(subject.value, GetOperator(name), body))
  {
    var pairs := if keyFirst then [("key", key), (name, body)] else [(name, body), ("key", key)];
    assert name != "key";
    ScanReadsPairs(pairs, NO_MATCH_ATTS, []);
    assert Flat(pairs) + [] == Flat(pairs);
    assert pairs[1..] == [pairs[1]] && pairs[1..][1..] == [];
    var first := TakePair(NO_MATCH_ATTS, pairs[0]);
    assert TakePairs(NO_MATCH_ATTS, pairs) == TakePairs(first, pairs[1..]) == TakePair(first, pairs[1])
        == MatchAtts(Some(key), GetOperator(name), Some(body));
  }

  /** An attribute the scan does not know, after the rule, spoils it: the element
      is rejected wherever it tests anything at all. */
  lemma UnknownAttributeRejects(hardware: Option<DmiInfo>, pairs: seq<(string, string)>, name: string, value: string)
    requires (forall p :: p in pairs ==> MatchName(p.0)) && !MatchName(name) && !MatchName(value)
    ensures var atts := Flat(pairs + [(name, value)]);
      Sound(hardware, "match", atts) && Subject(hardware, atts).Some? ==> !Accepted(hardware, "match", atts)
  {
    var atts, tail := Flat(pairs + [(name, value)]), [name, value];
    FlatConcat(pairs, [(name, value)]);
    assert Flat([(name, value)]) == tail;
    var m := TakePairs(NO_MATCH_ATTS, pairs);
    ScanReadsPairs(pairs, NO_MATCH_ATTS, tail);
    assert ScanMatch(tail, 0, m) == ScanMatch(tail, 1, m.(operator := M.Unknown)) == m.(operator := M.Unknown);
  }

  lemma {:induction false} FlatConcat(a: seq<(string, string)>, b: seq<(string, string)>)
    ensures Flat(a + b) == Flat(a) + Flat(b)
  {
    if a == [] {
      assert a + b == b;
    } else {
      assert (a + b)[1..] == a[1..] + b;
      FlatConcat(a[1..], b);
    }
  }

  // ---------- The parser object ----------

  class ParseInfo {
    const hardwareInfo: Option<DmiInfo>
    var xmlDepth: int
    var xmlBound: int
    var opt: Opt
    var optType: OptType
    var options: Options

    ghost function View(): ParseState
      reads this
    {
      ParseState(xmlDepth, xmlBound, opt, optType, options)
    }

    constructor (hardwareInfo: Option<DmiInfo>, options: Options)
      ensures this.hardwareInfo == hardwareInfo && View() == Initial(options)
    {
      this.hardwareInfo, this.options := hardwareInfo, options;
      xmlDepth, xmlBound, opt, optType := 0, 1, OptNone, OptTypeNone;
    }

    method ReadMatch(atts: seq<string>) returns (m: MatchAtts)
      ensures m == ScanMatch(atts, 0, NO_MATCH_ATTS)
    {
      m := NO_MATCH_ATTS;
      var i := 0;
      while i < |atts|
        invariant 0 <= i
        invariant ScanMatch(atts, i, m) == ScanMatch(atts, 0, NO_MATCH_ATTS)
        decreases |atts| - i
      {
        if atts[i] == "key" {
          if i + 1 < |atts| {
            m := m.(key := Some(atts[i + 1]));
            i := i + 1;
          }
        } else {
          m := m.(operator := GetOperator(atts[i]));
          if m.operator != M.Unknown && i + 1 < |atts| {
            m := m.(body := Some(atts[i + 1]));
            i := i + 1;
          }
        }
        i := i + 1;
      }
    }

    method ReadOption(atts: seq<string>) returns (m: OptionAtts)
      ensures m == ScanOption(atts, 0, OptionAtts(None, None))
    {
      m := OptionAtts(None, None);
      var i := 0;
      while i < |atts|
        invariant 0 <= i
        invariant ScanOption(atts, i, m) == ScanOption(atts, 0, OptionAtts(None, None))
        decreases |atts| - i
      {
        if atts[i] == "key" {
          if i + 1 < |atts| {
            m := m.(key := Some(atts[i + 1]));
            i := i + 1;
          }
        } else if atts[i] == "type" {
          if i + 1 < |atts| {
            m := m.(typ := Some(atts[i + 1]));
            i := i + 1;
          }
        }
        i := i + 1;
      }
    }

    /** parse_xml_start_element. */
    method StartElement(name: string, atts: seq<string>)
      requires Sound(hardwareInfo, name, atts)
      modifies this
      ensures View() == OnStart(hardwareInfo, old(View()), name, atts)
    {
      xmlDepth := xmlDepth + 1;
      if xmlDepth > xmlBound {
        return;
      } else if xmlDepth < xmlBound {
        xmlBound := xmlDepth + 1;
      }
      opt, optType := OptNone, OptTypeNone;
      if name == "match" {
        var m := ReadMatch(atts);
        var matchKey := GetMatchKey(hardwareInfo, m.key);
        if matchKey.Some? {
          var ok := M.Decide(matchKey.value, m.operator, m.body.value);
          if !ok {
            return;
          }
        }
      } else if name == "option" {
        var m := ReadOption(atts);
        opt, optType := GetOption(m.key), GetOptionType(m.typ);
      }
      xmlBound := xmlBound + 1;
    }

    /** parse_xml_end_element. */
    method EndElement()
      modifies this
      ensures View() == OnEnd(old(View()))
    {
      if xmlBound > xmlDepth {
        xmlBound := xmlDepth;
      }
      opt, optType := OptNone, OptTypeNone;
      xmlDepth := xmlDepth - 1;
    }

    /** parse_xml_cdata_handler. */
    method CData(text: string)
      modifies this
      ensures View() == OnChunk(old(View()), text)
    {
      if opt == OptNone || opt == OptUnknown {
        return;
      }
      var word := Word(text);
      if word.Some? {
        match opt
        case OptKeyControl => options := options.(keyControl := word.value);
        case OptMasterKey => options := options.(masterKey := word.value);
        case OptForceSync => options := options.(forceSync := word.value);
        case OptPersist => options := options.(persist := word.value);
        case OptStrictFlightMode => options := options.(strictFlightMode := word.value);
        case _ =>
      }
    }

    /** The XML parser's loop over a document's events. */
    method Parse(evs: seq<XmlEvent>)
      requires AllSound(hardwareInfo, evs)
      modifies this
      ensures View() == HandleAll(hardwareInfo, old(View()), evs)
    {
      for i := 0 to |evs|
        invariant HandleAll(hardwareInfo, View(), evs[i..]) == HandleAll(hardwareInfo, old(View()), evs)
      {
        assert EventSound(hardwareInfo, evs[i]);
        assert evs[i..][0] == evs[i] && evs[i..][1..] == evs[i + 1..];
        match evs[i]
        case Start(name, atts) => StartElement(name, atts);
        case End => EndElement();
        case Chunk(text) => CData(text);
      }
    }
  }
}
