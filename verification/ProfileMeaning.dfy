/** What profiles mean, in the letters of a document: which texts set which
    option, and which rules hold of which DMI string (urf-config.c). */
module ProfileMeaning {
  import opened Common
  import opened ProfileParser
  import M = MatchRule

  // ---------- Letters ----------

  const UPPER := "ABCDEFGHIJKLMNOPQRSTUVWXYZ"
  const LOWER := "abcdefghijklmnopqrstuvwxyz"

  /** The same character, or the same letter in the other case. */
  ghost predicate SameLetter(c: char, d: char) {
    c == d || exists i :: 0 <= i < 26 && ((c == UPPER[i] && d == LOWER[i]) || (c == LOWER[i] && d == UPPER[i]))
  }

  ghost predicate SameLetters(s: string, t: string) {
    |s| == |t| && forall i :: 0 <= i < |s| ==> SameLetter(s[i], t[i])
  }

  lemma Alphabet(c: char)
    ensures 'A' <= c <= 'Z' <==> c in UPPER
    ensures 'A' <= c <= 'Z' ==> c == UPPER[c as int - 'A' as int]
    ensures forall i :: 0 <= i < 26 ==> UPPER[i] == (i + 65) as char && LOWER[i] == (i + 97) as char
  {
  }

  /** Lowering is by the alphabet and leaves everything else alone. */
  lemma LoweredLetters(c: char)
    ensures forall i :: 0 <= i < 26 ==> M.LowerChar(UPPER[i]) == LOWER[i]
    ensures c !in UPPER ==> M.LowerChar(c) == c
  {
    Alphabet(c);
  }

  /** c is a capital letter and d the small one. */
  predicate Capital(c: char, d: char) {
    'A' <= c <= 'Z' && d as int == c as int + 32
  }

  lemma Alphabetical(i: nat)
    requires i < 26
    ensures UPPER[i] as int == i + 65 && LOWER[i] as int == i + 97
  {
  }

  lemma SameLetterMeans(c: char, d: char)
    ensures SameLetter(c, d) <==> c == d || Capital(c, d) || Capital(d, c)
  {
    if Capital(c, d) {
      Alphabetical(c as int - 65);
      assert c == UPPER[c as int - 65] && d == LOWER[c as int - 65];
    }
    if Capital(d, c) {
      Alphabetical(d as int - 65);
      assert d == UPPER[d as int - 65] && c == LOWER[d as int - 65];
    }
    if SameLetter(c, d) && c != d {
      var i :| 0 <= i < 26 && ((c == UPPER[i] && d == LOWER[i]) || (c == LOWER[i] && d == UPPER[i]));
      Alphabetical(i);
    }
  }

  lemma SameWhenLowered(c: char, d: char)
    ensures SameLetter(c, d) <==> M.LowerChar(c) == M.LowerChar(d)
  {
    hide SameLetter;
    SameLetterMeans(c, d);
  }

  lemma SameStrings(s: string, t: string)
    ensures SameLetters(s, t) <==> M.Lower(s) == M.Lower(t)
  {
    forall i | 0 <= i < |s| && i < |t| ensures SameLetter(s[i], t[i]) <==> M.Lower(s)[i] == M.Lower(t)[i] {
      SameWhenLowered(s[i], t[i]);
    }
  }

  lemma WordMeans(text: string)
    ensures Word(text) == Some(true) <==> SameLetters(text, "true")
    ensures Word(text) == Some(false) <==> SameLetters(text, "false")
  {
    SameStrings(text, "true");
    SameStrings(text, "false");
    assert M.Lower("true") == "true" && M.Lower("false") == "false";
  }

  // ---------- Documents that set one option ----------

  /** An attribute an option element knows, or one that it passes over. */
  ghost predicate Skippable(pair: (string, string)) {
    pair.0 in ["key", "type"] || (pair.0 !in ["key", "type"] && pair.1 !in ["key", "type"])
  }

  /** The last key attribute is this one. */
  ghost predicate LastKey(pairs: seq<(string, string)>, key: string) {
    exists i :: 0 <= i < |pairs| && pairs[i] == ("key", key) && forall j :: i < j < |pairs| ==> pairs[j].0 != "key"
  }

  /** An option element with that key, and with that text alone inside. */
  ghost predicate OptionElement(e: Node, key: string, text: string) {
    && e.Element? && e.name == "option" && e.children == [Text([text])]
    && exists pairs :: e.atts == Flat(pairs) && (forall p :: p in pairs ==> Skippable(p)) && LastKey(pairs, key)
  }

  ghost predicate AcceptedElement(hardware: Option<DmiInfo>, n: Node) {
    n.Element? && Sound(hardware, n.name, n.atts) && Accepted(hardware, n.name, n.atts)
  }

  /** No option is set anywhere in it. */
  ghost predicate SetsNothing(hardware: Option<DmiInfo>, n: Node) {
    AcceptedElement(hardware, n) ==> n.name != "option" && forall c :: c in n.children ==> SetsNothing(hardware, c)
  }

  /** It has one accepted option element, at any depth, and no other sets anything. */
  ghost predicate SetsOne(hardware: Option<DmiInfo>, e: Node, key: string, text: string)
    decreases e, 1
  {
    && AcceptedElement(hardware, e)
    && (OptionElement(e, key, text) || (e.name != "option" && OneOf(hardware, e, key, text)))
  }

  ghost predicate OneOf(hardware: Option<DmiInfo>, e: Node, key: string, text: string)
    requires e.Element?
    decreases e, 0
  {
    exists k :: 0 <= k < |e.children| && SetsOne(hardware, e.children[k], key, text)
      && forall j :: 0 <= j < |e.children| && j != k ==> SetsNothing(hardware, e.children[j])
  }

  /** The value an option has after a text, if the text is about this option. */
  ghost function After(before: bool, about: bool, text: string): bool {
    if about && SameLetters(text, "true") then true
    else if about && SameLetters(text, "false") then false
    else before
  }

  /** The five options after the text of an option element with that key. */
  ghost predicate SetBy(o: Options, r: Options, key: string, text: string) {
    && r.keyControl == After(o.keyControl, key == "key_control", text)
    && r.masterKey == After(o.masterKey, key == "master_key", text)
    && r.forceSync == After(o.forceSync, key == "force_sync", text)
    && r.persist == After(o.persist, key == "persist", text)
    && r.strictFlightMode == After(o.strictFlightMode, key == "strict_flight_mode", text)
  }

  lemma OptionElementSets(hardware: Option<DmiInfo>, o: Options, e: Node, key: string, text: string)
    requires OptionElement(e, key, text) && NodeSound(hardware, e)
    ensures SetBy(o, Evaluate(hardware, o, e), key, text)
  {
    hide ApplyText, SetBy, ScanOption, GetOption, OptionElement;
    KeyScanned(e, key, text);
    TextApplied(hardware, o, Slot(e.name, e.atts), text);
    NamedOption(o, key, text);
  }

  lemma NamedOption(o: Options, key: string, text: string)
    ensures SetBy(o, ApplyText(o, GetOption(Some(key)), text), key, text)
  {
    hide Word, SameLetters, GetOption;
    WordMeans(text);
    OptionNames(key);
  }

  lemma OptionNames(key: string)
    ensures var opt := GetOption(Some(key));
      && (opt == OptKeyControl <==> key == "key_control")
      && (opt == OptMasterKey <==> key == "master_key")
      && (opt == OptForceSync <==> key == "force_sync")
      && (opt == OptPersist <==> key == "persist")
      && (opt == OptStrictFlightMode <==> key == "strict_flight_mode")
  {
  }

  lemma TextApplied(hardware: Option<DmiInfo>, o: Options, opt: Opt, text: string)
    ensures ApplyChunks(o, opt, LeadingText([Text([text])])) == ApplyText(o, opt, text)
    ensures ListSound(hardware, [Text([text])])
    ensures forall r :: EvaluateAll(hardware, r, [Text([text])]) == r
  {
    var ns := [Text([text])];
    assert ns[1..] == [] && [text][1..] == [];
    assert LeadingText(ns) == [text] + LeadingText([]) == [text];
    assert ApplyChunks(o, opt, [text]) == ApplyChunks(ApplyText(o, opt, text), opt, []);
    forall r ensures EvaluateAll(hardware, r, ns) == r {
      assert EvaluateAll(hardware, r, ns) == EvaluateAll(hardware, r, []);
    }
  }

  lemma KeyScanned(e: Node, key: string, text: string)
    requires OptionElement(e, key, text)
    ensures e.Element? && e.name == "option" && e.children == [Text([text])]
    ensures ScanOption(e.atts, 0, OptionAtts(None, None)).key == Some(key)
  {
    var pairs: seq<(string, string)> :|
      e.atts == Flat(pairs) && (forall p :: p in pairs ==> Skippable(p)) && LastKey(pairs, key);
    var k :| 0 <= k < |pairs| && pairs[k] == ("key", key) && forall j :: k < j < |pairs| ==> pairs[j].0 != "key";
    LastKeyCounts(pairs, OptionAtts(None, None), k);
  }

  lemma {:induction false} ScanOptionShift(atts: seq<string>, i: nat, m: OptionAtts)
    requires i <= |atts|
    ensures ScanOption(atts, i, m) == ScanOption(atts[i..], 0, m)
    decreases |atts| - i
  {
    if i == |atts| {
    } else {
      var rest := atts[i..];
      var paired := atts[i] in ["key", "type"] && i + 1 < |atts|;
      var n := if !paired then m
               else if atts[i] == "key" then m.(key := Some(atts[i + 1])) else m.(typ := Some(atts[i + 1]));
      var step := if paired then 2 else 1;
      ScanOptionShift(atts, i + step, n);
      ScanOptionShift(rest, step, n);
      assert rest[step..] == atts[i + step..];
    }
  }

  /** One attribute is read, or passed over. */
  lemma ScanOptionPair(pair: (string, string), rest: seq<string>, m: OptionAtts)
    requires Skippable(pair)
    ensures ScanOption([pair.0, pair.1] + rest, 0, m)
         == ScanOption(rest, 0, if pair.0 == "key" then m.(key := Some(pair.1))
                                else if pair.0 == "type" then m.(typ := Some(pair.1))
                                else m)
  {
    var atts := [pair.0, pair.1] + rest;
    var n := if pair.0 == "key" then m.(key := Some(pair.1))
             else if pair.0 == "type" then m.(typ := Some(pair.1))
             else m;
    assert atts[0] == pair.0 && atts[1] == pair.1 && atts[2..] == rest;
    if pair.0 !in ["key", "type"] {
      assert ScanOption(atts, 0, m) == ScanOption(atts, 1, m) == ScanOption(atts, 2, m);
    }
    ScanOptionShift(atts, 2, n);
  }

  /** Of several keys the last one counts. */
  lemma {:induction false} LastKeyCounts(pairs: seq<(string, string)>, m: OptionAtts, k: int)
    requires (forall p :: p in pairs ==> Skippable(p)) && -1 <= k < |pairs|
    requires (k >= 0 ==> pairs[k].0 == "key") && forall j :: k < j < |pairs| ==> pairs[j].0 != "key"
    ensures ScanOption(Flat(pairs), 0, m).key == if k >= 0 then Some(pairs[k].1) else m.key
    decreases |pairs|
  {
    if pairs == [] {
    } else {
      assert pairs[0] in pairs;
      ScanOptionPair(pairs[0], Flat(pairs[1..]), m);
      var n := if pairs[0].0 == "key" then m.(key := Some(pairs[0].1))
               else if pairs[0].0 == "type" then m.(typ := Some(pairs[0].1))
               else m;
      LastKeyCounts(pairs[1..], n, if k > 0 then k - 1 else -1);
    }
  }

  /** The type attribute of an option has no effect: the handlers record it and
      never look at it. */
  lemma {:induction false} TypeIsIgnored(hardware: Option<DmiInfo>, p: ParseState, t: OptType, evs: seq<XmlEvent>)
    requires AllSound(hardware, evs)
    ensures HandleAll(hardware, p.(optType := t), evs).options == HandleAll(hardware, p, evs).options
    ensures GetOptionType(Some("bool")) == OptTypeBoolean
    ensures forall name :: name != Some("bool") ==> GetOptionType(name) == OptTypeUnknown
    ensures forall name, atts :: name != "option" ==> Slot(name, atts) == OptNone && SlotType(name, atts) == OptTypeNone
    ensures SlotType("option", []) == OptTypeUnknown
    decreases |evs|
  {
    if evs == [] {
    } else {
      assert EventSound(hardware, evs[0]);
      var q, r := Handle(hardware, p, evs[0]), Handle(hardware, p.(optType := t), evs[0]);
      assert r == q.(optType := r.optType);
      TypeIsIgnored(hardware, q, r.optType, evs[1..]);
    }
  }

  lemma {:induction false} NothingIsSet(hardware: Option<DmiInfo>, o: Options, e: Node)
    requires e.Element? && NodeSound(hardware, e) && SetsNothing(hardware, e)
    ensures Evaluate(hardware, o, e) == o
    decreases e, 0
  {
    if Accepted(hardware, e.name, e.atts) {
      ApplyNowhere(o, LeadingText(e.children));
      NothingIsSetIn(hardware, o, e.children);
    }
  }

  lemma {:induction false} NothingIsSetIn(hardware: Option<DmiInfo>, o: Options, ns: seq<Node>)
    requires ListSound(hardware, ns) && forall n :: n in ns ==> SetsNothing(hardware, n)
    ensures EvaluateAll(hardware, o, ns) == o
    decreases ns, 1
  {
    if ns == [] {
    } else {
      assert ns[0] in ns;
      if ns[0].Element? {
        NothingIsSet(hardware, o, ns[0]);
      }
      NothingIsSetIn(hardware, o, ns[1..]);
    }
  }

  lemma {:induction false} OneIsSet(hardware: Option<DmiInfo>, o: Options, e: Node, key: string, text: string)
    requires NodeSound(hardware, e) && SetsOne(hardware, e, key, text)
    ensures SetBy(o, Evaluate(hardware, o, e), key, text)
    decreases e, 0
  {
    if OptionElement(e, key, text) {
      OptionElementSets(hardware, o, e, key, text);
    } else {
      var k :| 0 <= k < |e.children| && SetsOne(hardware, e.children[k], key, text)
            && forall j :: 0 <= j < |e.children| && j != k ==> SetsNothing(hardware, e.children[j]);
      ApplyNowhere(o, LeadingText(e.children));
      OneIsSetIn(hardware, o, e.children, k, key, text);
    }
  }

  lemma {:induction false} OneIsSetIn(
      hardware: Option<DmiInfo>, o: Options, ns: seq<Node>, k: nat, key: string, text: string)
    requires ListSound(hardware, ns) && k < |ns| && SetsOne(hardware, ns[k], key, text)
    requires forall j :: 0 <= j < |ns| && j != k ==> SetsNothing(hardware, ns[j])
    ensures SetBy(o, EvaluateAll(hardware, o, ns), key, text)
    decreases ns, 1
  {
    assert ns[0] in ns;
    if k == 0 {
      OneIsSet(hardware, o, ns[0], key, text);
      NothingIsSetIn(hardware, Evaluate(hardware, o, ns[0]), ns[1..]);
    } else {
      if ns[0].Element? {
        NothingIsSet(hardware, o, ns[0]);
      }
      OneIsSetIn(hardware, o, ns[1..], k - 1, key, text);
    }
  }

  /** Parsing a document whose one accepted option element has a key and a text:
      the option of that name becomes true if the text reads true, false if it
      reads false, in letters of either case; nothing else is set. */
  lemma OptionIsRead(hardware: Option<DmiInfo>, o: Options, root: Node, key: string, text: string)
    requires NodeSound(hardware, root) && SetsOne(hardware, root, key, text)
    ensures AllSound(hardware, Flatten(root))
    ensures SetBy(o, HandleAll(hardware, Initial(o), Flatten(root)).options, key, text)
  {
    ParserEvaluates(hardware, o, root);
    OneIsSet(hardware, o, root, key, text);
  }

  // ---------- Rules ----------

  const RULES := ["string", "string_outof", "contains", "contains_ncase", "contains_not", "contains_outof",
                  "prefix", "prefix_ncase", "prefix_outof", "suffix", "suffix_ncase", "suffix_outof"]

  ghost predicate Inside(s: string, t: string) {
    exists a, b :: s == a + t + b
  }

  ghost predicate Starts(s: string, t: string) {
    exists b :: s == t + b
  }

  ghost predicate Ends(s: string, t: string) {
    exists a :: s == a + t
  }

  /** x stands in s between a and b, and is the text but for the case of letters. */
  ghost predicate Between(s: string, a: string, x: string, b: string, t: string) {
    s == a + x + b && SameLetters(x, t)
  }

  /** The pieces of a list that is separated by semicolons. */
  ghost predicate Pieces(list: string, pieces: seq<string>) {
    pieces != [] && (forall p :: p in pieces ==> ';' !in p) && M.Join(pieces) == list
  }

  /** What a rule says of a string; empty strings and empty rules never match. */
  ghost predicate Holds(s: string, rule: string, t: string) {
    && s != "" && t != ""
    && if rule == "string" then s == t
       else if rule == "string_outof" then exists ps, p :: Pieces(t, ps) && p in ps && s == p
       else if rule == "contains" then Inside(s, t)
       else if rule == "contains_ncase" then exists a, x, b :: Between(s, a, x, b, t)
       else if rule == "contains_not" then !Inside(s, t)
       else if rule == "contains_outof" then exists ps, p :: Pieces(t, ps) && p in ps && p != "" && Inside(s, p)
       else if rule == "prefix" then Starts(s, t)
       else if rule == "prefix_ncase" then exists x, b :: Between(s, "", x, b, t)
       else if rule == "prefix_outof" then exists ps, p :: Pieces(t, ps) && p in ps && p != "" && Starts(s, p)
       else if rule == "suffix" then Ends(s, t)
       else if rule == "suffix_ncase" then exists a, x :: Between(s, a, x, "", t)
       else if rule == "suffix_outof" then exists ps, p :: Pieces(t, ps) && p in ps && p != "" && Ends(s, p)
       else false
  }

  /** Lowering commutes with cutting. */
  lemma LoweredParts(s: string, i: nat, j: nat)
    requires i <= j <= |s|
    ensures M.Lower(s)[i..j] == M.Lower(s[i..j])
  {
  }

  lemma PrefixAnyCase(s: string, t: string)
    ensures M.HasPrefix(M.Lower(s), M.Lower(t)) <==> exists x, b :: Between(s, "", x, b, t)
  {
    if M.HasPrefix(M.Lower(s), M.Lower(t)) {
      LoweredParts(s, 0, |t|);
      SameStrings(s[..|t|], t);
      assert Between(s, "", s[..|t|], s[|t|..], t);
    }
    if x, b :| Between(s, "", x, b, t) {
      SameStrings(x, t);
      LoweredParts(s, 0, |x|);
      assert s[0..|x|] == x;
    }
  }

  lemma SuffixAnyCase(s: string, t: string)
    ensures M.HasSuffix(M.Lower(s), M.Lower(t)) <==> exists a, x :: Between(s, a, x, "", t)
  {
    if M.HasSuffix(M.Lower(s), M.Lower(t)) {
      var k := |s| - |t|;
      LoweredParts(s, k, |s|);
      SameStrings(s[k..], t);
      assert Between(s, s[..k], s[k..], "", t);
    }
    if a, x :| Between(s, a, x, "", t) {
      SameStrings(x, t);
      LoweredParts(s, |a|, |s|);
      assert s[|a|..|s|] == x;
    }
  }

  lemma InsideAnyCase(s: string, t: string)
    ensures M.Occurs(M.Lower(s), M.Lower(t)) <==> exists a, x, b :: Between(s, a, x, b, t)
  {
    if M.Occurs(M.Lower(s), M.Lower(t)) {
      InsideLowered(s, t);
    }
    if a, x, b :| Between(s, a, x, b, t) {
      assert s[|a|..] == x + b;
      assert Between(s[|a|..], "", x, b, t);
      hide Between, M.Lower, M.HasPrefix;
      PrefixAnyCase(s[|a|..], t);
      LoweredParts(s, |a|, |s|);
      LoweredLength(s);
      assert M.HasPrefix(M.Lower(s)[|a|..], M.Lower(t));
    }
  }

  lemma LoweredLength(s: string)
    ensures |M.Lower(s)| == |s| && M.Lower(s)[..|s|] == M.Lower(s) && s[..|s|] == s
  {
  }

  lemma InsideLowered(s: string, t: string)
    requires M.Occurs(M.Lower(s), M.Lower(t))
    ensures exists a, x, b :: Between(s, a, x, b, t)
  {
    var i :| 0 <= i <= |s| && M.HasPrefix(M.Lower(s)[i..], M.Lower(t));
    LoweredRest(s, i);
    hide Between, M.Lower, M.HasPrefix;
    PrefixAnyCase(s[i..], t);
    var x, b :| Between(s[i..], "", x, b, t);
    BetweenLater(s, i, x, b, t);
  }

  lemma LoweredRest(s: string, i: nat)
    requires i <= |s|
    ensures i <= |M.Lower(s)| && M.Lower(s)[i..] == M.Lower(s[i..])
  {
  }

  lemma BetweenLater(s: string, i: nat, x: string, b: string, t: string)
    requires i <= |s| && Between(s[i..], "", x, b, t)
    ensures Between(s, s[..i], x, b, t)
  {
    assert s == s[..i] + s[i..];
  }

  /** The pieces the program cuts a list into are its pieces, and no others are. */
  lemma CutIntoPieces(t: string)
    requires t != ""
    ensures Pieces(t, M.Split(t)) && forall ps :: Pieces(t, ps) ==> ps == M.Split(t)
  {
    M.SplitJoins(t);
    forall ps | Pieces(t, ps) ensures ps == M.Split(t) {
      M.SplitUnique(ps);
    }
  }

  lemma PlainMeans(s: string, t: string)
    requires s != "" && t != ""
    ensures M.Basic(s, M.Contains, t) <==> Inside(s, t)
    ensures M.Basic(s, M.Prefix, t) <==> Starts(s, t)
    ensures M.Basic(s, M.Suffix, t) <==> Ends(s, t)
  {
    M.ContainsMeans(s, t);
    M.EndsMean(s, t);
  }

  lemma AnyPieceMeans(s: string, t: string)
    requires s != "" && t != ""
    ensures M.AnyPiece(s, M.Whole, M.Split(t)) <==> exists ps, p :: Pieces(t, ps) && p in ps && s == p
    ensures M.AnyPiece(s, M.Contains, M.Split(t))
       <==> exists ps, p :: Pieces(t, ps) && p in ps && p != "" && Inside(s, p)
    ensures M.AnyPiece(s, M.Prefix, M.Split(t))
       <==> exists ps, p :: Pieces(t, ps) && p in ps && p != "" && Starts(s, p)
    ensures M.AnyPiece(s, M.Suffix, M.Split(t)) <==> exists ps, p :: Pieces(t, ps) && p in ps && p != "" && Ends(s, p)
  {
    hide Pieces, Inside, Starts, Ends;
    CutIntoPieces(t);
    forall p | p in M.Split(t) && p != ""
      ensures M.Basic(s, M.Contains, p) <==> Inside(s, p)
      ensures M.Basic(s, M.Prefix, p) <==> Starts(s, p)
      ensures M.Basic(s, M.Suffix, p) <==> Ends(s, p)
    {
      PlainMeans(s, p);
    }
  }

  /** The same, by the operator a rule's name stands for. */
  ghost predicate HoldsAs(s: string, operator: M.Operator, t: string) {
    && s != "" && t != ""
    && match operator
       case Whole => s == t
       case WholeOutof => exists ps, p :: Pieces(t, ps) && p in ps && s == p
       case Contains => Inside(s, t)
       case ContainsNcase => exists a, x, b :: Between(s, a, x, b, t)
       case ContainsNot => !Inside(s, t)
       case ContainsOutof => exists ps, p :: Pieces(t, ps) && p in ps && p != "" && Inside(s, p)
       case Prefix => Starts(s, t)
       case PrefixNcase => exists x, b :: Between(s, "", x, b, t)
       case PrefixOutof => exists ps, p :: Pieces(t, ps) && p in ps && p != "" && Starts(s, p)
       case Suffix => Ends(s, t)
       case SuffixNcase => exists a, x :: Between(s, a, x, "", t)
       case SuffixOutof => exists ps, p :: Pieces(t, ps) && p in ps && p != "" && Ends(s, p)
       case Unknown => false
  }

  lemma PlainRule(s: string, operator: M.Operator, t: string)
    requires s != "" && t != "" && operator in {M.Whole, M.Contains, M.ContainsNot, M.Prefix, M.Suffix, M.Unknown}
    ensures M.Matches(s, operator, t) <==> HoldsAs(s, operator, t)
  {
    hide Inside, Starts, Ends, M.Occurs, M.HasPrefix, M.HasSuffix;
    PlainMeans(s, t);
  }

  lemma AnyCaseRule(s: string, operator: M.Operator, t: string)
    requires s != "" && t != "" && operator in {M.ContainsNcase, M.PrefixNcase, M.SuffixNcase}
    ensures M.Matches(s, operator, t) <==> HoldsAs(s, operator, t)
  {
    hide Between, M.Occurs, M.HasPrefix, M.HasSuffix, M.Lower;
    InsideAnyCase(s, t);
    PrefixAnyCase(s, t);
    SuffixAnyCase(s, t);
  }

  lemma PieceRule(s: string, operator: M.Operator, t: string)
    requires s != "" && t != "" && operator in {M.WholeOutof, M.ContainsOutof, M.PrefixOutof, M.SuffixOutof}
    ensures M.Matches(s, operator, t) <==> HoldsAs(s, operator, t)
  {
    hide Pieces, Inside, Starts, Ends, M.AnyPiece, M.Split;
    AnyPieceMeans(s, t);
  }

  lemma OperatorMeans(s: string, operator: M.Operator, t: string)
    ensures M.Matches(s, operator, t) <==> HoldsAs(s, operator, t)
  {
    if s == "" || t == "" {
    } else {
      hide M.Matches, HoldsAs;
      if M.IsOutof(operator) {
        PieceRule(s, operator, t);
      } else if M.IsNcase(operator) {
        AnyCaseRule(s, operator, t);
      } else {
        PlainRule(s, operator, t);
      }
    }
  }

  lemma RuleMeans(s: string, rule: string, t: string)
    requires rule in RULES
    ensures GetOperator(rule) != M.Unknown
    ensures M.Matches(s, GetOperator(rule), t) <==> Holds(s, rule, t)
  {
    hide M.Matches, Pieces, Inside, Starts, Ends, Between;
    OperatorMeans(s, GetOperator(rule), t);
  }

  /** This machine has the string a key names. */
  ghost predicate Has(hardware: Option<DmiInfo>, key: string, s: string) {
    && hardware.Some?
    && var h := hardware.value;
    || (key == "sys_vendor" && h.sysVendor == Some(s))
    || (key == "bios_date" && h.biosDate == Some(s))
    || (key == "bios_vendor" && h.biosVendor == Some(s))
    || (key == "bios_version" && h.biosVersion == Some(s))
    || (key == "product_name" && h.productName == Some(s))
    || (key == "product_version" && h.productVersion == Some(s))
  }

  lemma KeyNames(hardware: Option<DmiInfo>, key: string, s: string)
    ensures GetMatchKey(hardware, Some(key)) == Some(s) <==> Has(hardware, key, s)
  {
  }

  /** A match element with one key and one rule, in either order, is accepted
      unless this machine has a string for the key of which the rule does not hold. */
  lemma MatchMeans(hardware: Option<DmiInfo>, key: string, rule: string, t: string, keyFirst: bool)
    requires rule in RULES
    ensures var atts := Flat(if keyFirst then [("key", key), (rule, t)] else [(rule, t), ("key", key)]);
      && Sound(hardware, "match", atts)
      && (Accepted(hardware, "match", atts) <==> forall s :: Has(hardware, key, s) ==> Holds(s, rule, t))
  {
    hide Has, Holds, GetMatchKey, GetOperator, M.Matches;
    forall s
      ensures GetMatchKey(hardware, Some(key)) == Some(s) <==> Has(hardware, key, s)
      ensures GetOperator(rule) != M.Unknown
      ensures M.Matches(s, GetOperator(rule), t) <==> Holds(s, rule, t)
    {
      KeyNames(hardware, key, s);
      RuleMeans(s, rule, t);
    }
    RuleMeans("", rule, t);
    OneRule(hardware, key, rule, t, keyFirst);
  }

  /** Elements of other names are accepted. */
  lemma OthersAccepted(hardware: Option<DmiInfo>, name: string, atts: seq<string>)
    requires name != "match"
    ensures Sound(hardware, name, atts) && Accepted(hardware, name, atts)
  {
  }
}
