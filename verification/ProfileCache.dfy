/** Loading the options (urf-config.c): from the profiles of this machine, or
    from the file that caches their outcome, and then from the user's file.

    Key files are given as parsed, group by group; the machine's DMI strings are
    known; a profile that cannot be read or parsed is None. */
module ProfileCache {
  import opened Common
  import opened ProfileParser
  import M = MatchRule

  /** Groups of keys with their values. */
  type KeyFile = map<string, map<string, string>>

  /** The keys the five options are stored under. */
  const KEY_CONTROL := "key_control"
  const MASTER_KEY := "master_key"
  const FORCE_SYNC := "force_sync"
  const PERSIST := "persist"
  const STRICT_FLIGHT_MODE := "strict_flight_mode"

  /** A directory entry; only regular files are read. */
  datatype Entry = Entry(name: string, regular: bool, profile: Option<Node>)

  /** What urf_config_init starts from. */
  const DEFAULTS := Options(true, false, false, true, true)

  /** The options in memory and the cache on disk, if there is one. */
  datatype Settings = Settings(options: Options, configured: Option<KeyFile>)

  // ---------- Key files ----------

  /** g_key_file_get_boolean on a present value; None is an error. */
  function Boolean(text: string): Option<bool> {
    if text == "true" || text == "1" then Some(true)
    else if text == "false" || text == "0" then Some(false)
    else None
  }

  function BoolText(value: bool): string {
    if value then "true" else "false"
  }

  /** The entry's value, or what held before if it is missing or no boolean. */
  function Pick(file: KeyFile, group: string, key: string, before: bool): bool {
    if group in file && key in file[group] && Boolean(file[group][key]).Some?
    then Boolean(file[group][key]).value
    else before
  }

  function Overlay(o: Options, file: KeyFile, group: string): Options {
    Options(Pick(file, group, KEY_CONTROL, o.keyControl),
            Pick(file, group, MASTER_KEY, o.masterKey),
            Pick(file, group, FORCE_SYNC, o.forceSync),
            Pick(file, group, PERSIST, o.persist),
            Pick(file, group, STRICT_FLIGHT_MODE, o.strictFlightMode))
  }

  function CacheOf(o: Options): KeyFile {
    map["Profile" := map[KEY_CONTROL := BoolText(o.keyControl),
                         MASTER_KEY := BoolText(o.masterKey),
                         FORCE_SYNC := BoolText(o.forceSync),
                         PERSIST := BoolText(o.persist),
                         STRICT_FLIGHT_MODE := BoolText(o.strictFlightMode)]]
  }

  predicate Usable(configured: Option<KeyFile>) {
    configured.Some? && "Profile" in configured.value
  }

  lemma BooleanReadsBack(b: bool)
    ensures Boolean(BoolText(b)) == Some(b)
  {
  }

  /** What is written is what is read, whatever the options were before. */
  lemma CacheRoundTrip(o: Options, before: Options)
    ensures Usable(Some(CacheOf(o))) && Overlay(before, CacheOf(o), "Profile") == o
  {
    forall b ensures Boolean(BoolText(b)) == Some(b) {
      BooleanReadsBack(b);
    }
  }

  // ---------- Names in byte order ----------

  /** g_strcmp0(a, b) <= 0. */
  predicate AtMost(a: string, b: string) {
    a == "" || (b != "" && (a[0] < b[0] || (a[0] == b[0] && AtMost(a[1..], b[1..]))))
  }

  lemma {:induction false} AtMostTotal(a: string, b: string)
    ensures AtMost(a, b) || AtMost(b, a)
    ensures AtMost(a, b) && AtMost(b, a) ==> a == b
  {
    if a == "" || b == "" || a[0] != b[0] {
    } else {
      AtMostTotal(a[1..], b[1..]);
      assert a == [a[0]] + a[1..] && b == [b[0]] + b[1..];
    }
  }

  lemma {:induction false} AtMostTransitive(a: string, b: string, c: string)
    requires AtMost(a, b) && AtMost(b, c)
    ensures AtMost(a, c)
  {
    if a == "" || b == "" || c == "" || !(a[0] == b[0] == c[0]) {
    } else {
      AtMostTransitive(a[1..], b[1..], c[1..]);
    }
  }

  function Insert(e: Entry, list: seq<Entry>): seq<Entry> {
    if list == [] || AtMost(e.name, list[0].name) then [e] + list
    else [list[0]] + Insert(e, list[1..])
  }

  function Sort(list: seq<Entry>): seq<Entry> {
    if list == [] then [] else Insert(list[0], Sort(list[1..]))
  }

  predicate Eligible(e: Entry) {
    !(e.name != "" && e.name[0] == '.') && M.HasSuffix(e.name, ".xml") && e.regular
  }

  function Profiles(dir: seq<Entry>): seq<Entry> {
    if dir == [] then []
    else (if Eligible(dir[0]) then [dir[0]] else []) + Profiles(dir[1..])
  }

  // ---------- Loading ----------

  /** The profiles of a directory are documents the parser is defined on. */
  ghost predicate Readable(hardware: Option<DmiInfo>, dir: seq<Entry>) {
    forall e :: e in dir && e.profile.Some? ==> e.profile.value.Element? && NodeSound(hardware, e.profile.value)
  }

  /** One profile after the other; a failed one changes nothing. */
  function EvaluateProfiles(hardware: Option<DmiInfo>, o: Options, list: seq<Entry>): Options
    requires Readable(hardware, list)
    decreases |list|
  {
    if list == [] then o
    else
      var next := if list[0].profile.Some? then Evaluate(hardware, o, list[0].profile.value) else o;
      EvaluateProfiles(hardware, next, list[1..])
  }

  lemma {:induction false} ProfilesSubset(dir: seq<Entry>)
    ensures forall e :: e in Profiles(dir) ==> e in dir && Eligible(e)
  {
    if dir == [] {
    } else {
      ProfilesSubset(dir[1..]);
    }
  }

  lemma {:induction false} InsertElements(e: Entry, list: seq<Entry>)
    ensures multiset(Insert(e, list)) == multiset{e} + multiset(list)
  {
    if list == [] || AtMost(e.name, list[0].name) {
    } else {
      InsertElements(e, list[1..]);
      assert list == [list[0]] + list[1..];
    }
  }

  lemma {:induction false} SortElements(list: seq<Entry>)
    ensures multiset(Sort(list)) == multiset(list)
    ensures forall e :: e in Sort(list) <==> e in list
  {
    if list == [] {
    } else {
      SortElements(list[1..]);
      InsertElements(list[0], Sort(list[1..]));
      assert list == [list[0]] + list[1..];
    }
    forall e ensures e in Sort(list) <==> e in list {
      assert e in Sort(list) <==> e in multiset(Sort(list));
      assert e in list <==> e in multiset(list);
    }
  }

  lemma LoadedReadable(hardware: Option<DmiInfo>, dir: seq<Entry>)
    requires Readable(hardware, dir)
    ensures Readable(hardware, Sort(Profiles(dir)))
  {
    ProfilesSubset(dir);
    SortElements(Profiles(dir));
  }

  /** What all the profiles together make of the options. */
  function FromProfiles(hardware: DmiInfo, o: Options, dir: seq<Entry>): Options
    requires Readable(Some(hardware), dir)
  {
    LoadedReadable(Some(hardware), dir);
    EvaluateProfiles(Some(hardware), o, Sort(Profiles(dir)))
  }

  /** urf_config_load_profile; if the cache cannot be written there is none afterwards. */
  function ProfileLoaded(s: Settings, hardware: DmiInfo, dir: seq<Entry>, writable: bool): Settings
    requires Readable(Some(hardware), dir)
  {
    if Usable(s.configured) then s.(options := Overlay(s.options, s.configured.value, "Profile"))
    else
      var o := FromProfiles(hardware, s.options, dir);
      Settings(o, if writable then Some(CacheOf(o)) else None)
  }

  /** urf_config_load_from_file; user is the user's file if it loads. */
  function Load(s: Settings, hardware: DmiInfo, dir: seq<Entry>, writable: bool, user: Option<KeyFile>): Settings
    requires Readable(Some(hardware), dir)
  {
    var t := ProfileLoaded(s, hardware, dir, writable);
    if user.None? then t else t.(options := Overlay(t.options, user.value, "general"))
  }

  // ---------- The cache is faithful ----------

  /** A daemon that starts on the cache a first one left behind ends up with the
      options that evaluating all profiles and the same user's file would give,
      whether or not the cache could be written. */
  lemma CacheIsFaithful(disk: Option<KeyFile>, hardware: DmiInfo, dir: seq<Entry>, writable: bool,
                        user: Option<KeyFile>, again: bool, user': Option<KeyFile>)
    requires Readable(Some(hardware), dir) && !Usable(disk)
    ensures var first := Load(Settings(DEFAULTS, disk), hardware, dir, writable, user);
      Load(Settings(DEFAULTS, first.configured), hardware, dir, again, user').options
        == Load(Settings(DEFAULTS, disk), hardware, dir, again, user').options
  {
    CacheRoundTrip(FromProfiles(hardware, DEFAULTS, dir), DEFAULTS);
  }

  /** Once written, the cache answers for the profiles for good: later changes of
      the profiles, the hardware or the defaults are not noticed. */
  lemma CacheIsFinal(s: Settings, hardware: DmiInfo, dir: seq<Entry>, o: Options, hardware': DmiInfo, dir': seq<Entry>,
                     again: bool)
    requires Readable(Some(hardware), dir) && Readable(Some(hardware'), dir') && !Usable(s.configured)
    ensures var first := ProfileLoaded(s, hardware, dir, true);
      ProfileLoaded(Settings(o, first.configured), hardware', dir', again) == first
  {
    CacheRoundTrip(FromProfiles(hardware, s.options, dir), o);
  }

  // ---------- The order of the directory does not matter ----------

  ghost predicate Ordered(list: seq<Entry>) {
    forall i, j :: 0 <= i < j < |list| ==> AtMost(list[i].name, list[j].name)
  }

  ghost predicate DistinctNames(list: seq<Entry>) {
    forall i, j :: 0 <= i < j < |list| ==> list[i].name != list[j].name
  }

  lemma {:induction false} InsertOrdered(e: Entry, list: seq<Entry>)
    requires Ordered(list)
    ensures Ordered(Insert(e, list))
  {
    if list == [] {
    } else if AtMost(e.name, list[0].name) {
      forall j | 0 <= j < |list| ensures AtMost(e.name, list[j].name) {
        if j > 0 {
          AtMostTransitive(e.name, list[0].name, list[j].name);
        }
      }
    } else {
      InsertOrdered(e, list[1..]);
      AtMostTotal(e.name, list[0].name);
      InsertElements(e, list[1..]);
      var rest := Insert(e, list[1..]);
      forall j | 0 <= j < |rest| ensures AtMost(list[0].name, rest[j].name) {
        assert rest[j] in multiset(rest);
        assert rest[j] == e || rest[j] in list[1..];
      }
    }
  }

  lemma {:induction false} SortOrdered(list: seq<Entry>)
    ensures Ordered(Sort(list))
  {
    if list == [] {
    } else {
      SortOrdered(list[1..]);
      InsertOrdered(list[0], Sort(list[1..]));
    }
  }

  /** Sorted lists with the same elements and distinct names are equal. */
  lemma {:induction false} OrderedUnique(a: seq<Entry>, b: seq<Entry>)
    requires Ordered(a) && Ordered(b) && multiset(a) == multiset(b) && DistinctNames(a)
    ensures a == b
  {
    assert |a| == |multiset(a)| == |multiset(b)| == |b|;
    if a == [] {
    } else {
      SameFirst(a, b);
      SameRest(a, b);
      OrderedUnique(a[1..], b[1..]);
    }
  }

  lemma SameRest(a: seq<Entry>, b: seq<Entry>)
    requires a != [] && b != [] && a[0] == b[0] && multiset(a) == multiset(b)
    ensures multiset(a[1..]) == multiset(b[1..])
  {
    assert a == [a[0]] + a[1..] && b == [b[0]] + b[1..];
    assert multiset(a[1..]) == multiset(a) - multiset{a[0]};
  }

  lemma SameFirst(a: seq<Entry>, b: seq<Entry>)
    requires Ordered(a) && Ordered(b) && DistinctNames(a) && a != [] && b != []
    requires multiset(a) == multiset(b)
    ensures a[0] == b[0]
  {
    assert a[0] in multiset(b) && b[0] in multiset(a);
    var i :| 0 <= i < |a| && a[i] == b[0];
    var j :| 0 <= j < |b| && b[j] == a[0];
    AtMostTotal(a[0].name, b[0].name);
    assert AtMost(a[0].name, a[i].name) && AtMost(b[0].name, b[j].name);
  }

  lemma {:induction false} ProfilesCount(dir: seq<Entry>, e: Entry)
    ensures multiset(Profiles(dir))[e] == if Eligible(e) then multiset(dir)[e] else 0
  {
    if dir == [] {
    } else {
      ProfilesCount(dir[1..], e);
      assert dir == [dir[0]] + dir[1..];
      assert multiset(dir)[e] == multiset([dir[0]])[e] + multiset(dir[1..])[e];
    }
  }

  lemma {:induction false} ProfilesDistinct(dir: seq<Entry>)
    requires DistinctNames(dir)
    ensures DistinctNames(Profiles(dir))
  {
    if dir == [] {
    } else {
      ProfilesDistinct(dir[1..]);
      ProfilesSubset(dir[1..]);
      var rest := Profiles(dir[1..]);
      forall j | 0 <= j < |rest| ensures rest[j].name != dir[0].name {
        assert rest[j] in dir[1..];
      }
    }
  }

  /** The file names of a directory are distinct, so sorting them undoes the
      order they are read in: the outcome depends on the directory alone. */
  lemma ReadOrderIsIrrelevant(hardware: DmiInfo, o: Options, dir: seq<Entry>, dir': seq<Entry>)
    requires Readable(Some(hardware), dir) && Readable(Some(hardware), dir')
    requires multiset(dir) == multiset(dir') && DistinctNames(dir)
    ensures FromProfiles(hardware, o, dir) == FromProfiles(hardware, o, dir')
  {
    var a, b := Profiles(dir), Profiles(dir');
    forall e ensures multiset(a)[e] == multiset(b)[e] {
      ProfilesCount(dir, e);
      ProfilesCount(dir', e);
    }
    assert multiset(a) == multiset(b);
    SortElements(a);
    SortElements(b);
    SortOrdered(a);
    SortOrdered(b);
    ProfilesDistinct(dir);
    SortDistinct(a);
    OrderedUnique(Sort(a), Sort(b));
  }

  lemma {:induction false} InsertDistinct(e: Entry, list: seq<Entry>)
    requires DistinctNames(list) && forall x :: x in list ==> x.name != e.name
    ensures DistinctNames(Insert(e, list))
  {
    if list == [] || AtMost(e.name, list[0].name) {
    } else {
      InsertDistinct(e, list[1..]);
      InsertElements(e, list[1..]);
      var rest := Insert(e, list[1..]);
      forall j | 0 <= j < |rest| ensures rest[j].name != list[0].name {
        assert rest[j] in multiset(rest);
        assert rest[j] == e || rest[j] in list[1..];
      }
    }
  }

  lemma {:induction false} SortDistinct(list: seq<Entry>)
    requires DistinctNames(list)
    ensures DistinctNames(Sort(list))
  {
    if list == [] {
    } else {
      SortDistinct(list[1..]);
      SortElements(list[1..]);
      InsertDistinct(list[0], Sort(list[1..]));
    }
  }

  // ---------- A failed profile changes nothing ----------

  /** The entries whose profile can be read and parsed. */
  function Parsable(dir: seq<Entry>): seq<Entry> {
    if dir == [] then []
    else (if dir[0].profile.Some? then [dir[0]] else []) + Parsable(dir[1..])
  }

  lemma {:induction false} ParsableSubset(list: seq<Entry>)
    ensures forall e :: e in Parsable(list) ==> e in list
  {
    if list == [] {
    } else {
      ParsableSubset(list[1..]);
    }
  }

  lemma ParsableHead(e: Entry, list: seq<Entry>)
    ensures Parsable([e] + list) == if e.profile.Some? then [e] + Parsable(list) else Parsable(list)
  {
    assert ([e] + list)[1..] == list;
    assert [] + Parsable(list) == Parsable(list);
  }

  lemma {:induction false} EvaluateParsable(hardware: Option<DmiInfo>, o: Options, list: seq<Entry>)
    requires Readable(hardware, list)
    ensures Readable(hardware, Parsable(list))
    ensures EvaluateProfiles(hardware, o, Parsable(list)) == EvaluateProfiles(hardware, o, list)
    decreases |list|
  {
    ParsableSubset(list);
    if list == [] {
    } else {
      var next := if list[0].profile.Some? then Evaluate(hardware, o, list[0].profile.value) else o;
      EvaluateParsable(hardware, next, list[1..]);
      assert list == [list[0]] + list[1..];
      ParsableHead(list[0], list[1..]);
      assert ([list[0]] + Parsable(list[1..]))[1..] == Parsable(list[1..]);
    }
  }

  lemma {:induction false} InsertParsable(e: Entry, list: seq<Entry>)
    requires Ordered(list)
    ensures Parsable(Insert(e, list)) == if e.profile.Some? then Insert(e, Parsable(list)) else Parsable(list)
  {
    if list == [] {
      ParsableHead(e, list);
    } else if AtMost(e.name, list[0].name) {
      ParsableHead(e, list);
      ParsableSubset(list);
      if e.profile.Some? && Parsable(list) != [] {
        assert Parsable(list)[0] in Parsable(list);
        var k :| 0 <= k < |list| && list[k] == Parsable(list)[0];
        if k > 0 {
          AtMostTransitive(e.name, list[0].name, list[k].name);
        }
      }
    } else {
      InsertParsable(e, list[1..]);
      assert list == [list[0]] + list[1..];
      ParsableHead(list[0], list[1..]);
      ParsableHead(list[0], Insert(e, list[1..]));
    }
  }

  lemma {:induction false} SortParsable(list: seq<Entry>)
    ensures Parsable(Sort(list)) == Sort(Parsable(list))
  {
    if list == [] {
    } else {
      SortParsable(list[1..]);
      SortOrdered(list[1..]);
      InsertParsable(list[0], Sort(list[1..]));
      assert list == [list[0]] + list[1..];
      ParsableHead(list[0], list[1..]);
    }
  }

  lemma {:induction false} ProfilesParsable(dir: seq<Entry>)
    ensures Parsable(Profiles(dir)) == Profiles(Parsable(dir))
  {
    if dir == [] {
    } else {
      var e, rest := dir[0], dir[1..];
      ProfilesParsable(rest);
      assert dir == [e] + rest;
      ParsableHead(e, rest);
      ParsableHead(e, Profiles(rest));
      assert ([e] + Parsable(rest))[1..] == Parsable(rest);
      assert [] + Profiles(rest) == Profiles(rest) && [] + Profiles(Parsable(rest)) == Profiles(Parsable(rest));
    }
  }

  /** Files that fail to parse might as well not be there. */
  lemma FailedProfilesAreIgnored(hardware: DmiInfo, o: Options, dir: seq<Entry>)
    requires Readable(Some(hardware), dir)
    ensures Readable(Some(hardware), Parsable(dir))
    ensures FromProfiles(hardware, o, dir) == FromProfiles(hardware, o, Parsable(dir))
  {
    ParsableSubset(dir);
    LoadedReadable(Some(hardware), dir);
    EvaluateParsable(Some(hardware), o, Sort(Profiles(dir)));
    SortParsable(Profiles(dir));
    ProfilesParsable(dir);
  }

  // ---------- The configuration object ----------

  class UrfConfig {
    var options: Options
    /** The file hardware.conf. */
    var configured: Option<KeyFile>

    ghost function View(): Settings
      reads this
    {
      Settings(options, configured)
    }

    constructor (disk: Option<KeyFile>)
      ensures View() == Settings(DEFAULTS, disk)
    {
      options, configured := DEFAULTS, disk;
    }

    /** One read; an error keeps what held before. */
    method ReadBoolean(file: KeyFile, group: string, key: string, before: bool) returns (value: bool)
      ensures value == Pick(file, group, key, before)
    {
      value := before;
      if group in file && key in file[group] {
        var read := Boolean(file[group][key]);
        if read.Some? {
          value := read.value;
        }
      }
    }

    /** The five reads that load a key file's group over the options. */
    method ReadOptions(file: KeyFile, group: string)
      modifies `options
      ensures options == Overlay(old(options), file, group)
    {
      var keyControl := ReadBoolean(file, group, KEY_CONTROL, options.keyControl);
      options := options.(keyControl := keyControl);
      var masterKey := ReadBoolean(file, group, MASTER_KEY, options.masterKey);
      options := options.(masterKey := masterKey);
      var forceSync := ReadBoolean(file, group, FORCE_SYNC, options.forceSync);
      options := options.(forceSync := forceSync);
      var persist := ReadBoolean(file, group, PERSIST, options.persist);
      options := options.(persist := persist);
      var strict := ReadBoolean(file, group, STRICT_FLIGHT_MODE, options.strictFlightMode);
      options := options.(strictFlightMode := strict);
    }

    /** load_configured_settings. */
    method LoadConfiguredSettings() returns (found: bool)
      modifies `options
      ensures found == Usable(configured)
      ensures options == if found then Overlay(old(options), configured.value, "Profile") else old(options)
    {
      found := configured.Some? && "Profile" in configured.value;
      if found {
        ReadOptions(configured.value, "Profile");
      }
    }

    /** profile_xml_parse: works on a copy of the options, kept only if all goes well. */
    method ParseProfile(hardware: DmiInfo, o: Options, profile: Option<Node>) returns (after: Options)
      requires profile.Some? ==> profile.value.Element? && NodeSound(Some(hardware), profile.value)
      ensures after == if profile.Some? then Evaluate(Some(hardware), o, profile.value) else o
    {
      after := o;
      if profile.Some? {
        var info := new ParseInfo(Some(hardware), o);
        ParserEvaluates(Some(hardware), o, profile.value);
        info.Parse(Flatten(profile.value));
        after := info.options;
      }
    }

    /** urf_config_load_profile. */
    method LoadProfile(hardware: DmiInfo, dir: seq<Entry>, writable: bool)
      requires Readable(Some(hardware), dir)
      modifies this
      ensures View() == ProfileLoaded(old(View()), hardware, dir, writable)
    {
      var found := LoadConfiguredSettings();
      if found {
        return;
      }
      var o := options;
      var list := Sort(Profiles(dir));
      assert list[0..] == list;
      LoadedReadable(Some(hardware), dir);
      for i := 0 to |list|
        invariant View() == old(View())
        invariant EvaluateProfiles(Some(hardware), o, list[i..]) == FromProfiles(hardware, options, dir)
      {
        assert list[i] in list && list[i..][1..] == list[i + 1..];
        o := ParseProfile(hardware, o, list[i].profile);
      }
      assert list[|list|..] == [];
      options := o;
      configured := if writable then Some(CacheOf(o)) else None;
    }

    /** urf_config_load_from_file. */
    method LoadFromFile(hardware: DmiInfo, dir: seq<Entry>, writable: bool, user: Option<KeyFile>)
      requires Readable(Some(hardware), dir)
      modifies this
      ensures View() == Load(old(View()), hardware, dir, writable, user)
    {
      LoadProfile(hardware, dir, writable);
      if user.Some? {
        ReadOptions(user.value, "general");
      }
    }
  }
}
