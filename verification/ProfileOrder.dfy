/** Which profile, and which file, has the last word on an option (urf-config.c). */
module ProfileOrder {
  import opened Common
  import opened ProfileParser
  import opened ProfileCache
  import opened ProfileMeaning
  import M = MatchRule

  /** The first name is a proper prefix of the second, or has the smaller
      character at the first place where they differ. */
  ghost predicate Before(a: string, b: string) {
    || (a < b)
    || exists i :: 0 <= i < |a| && i < |b| && a[..i] == b[..i] && a[i] < b[i]
  }

  lemma {:induction false} OrderMeans(a: string, b: string)
    ensures AtMost(a, b) <==> a == b || Before(a, b)
  {
    if a == "" || b == "" {
      assert a == "" && b != "" ==> a < b;
    } else if a[0] != b[0] {
      assert a[..0] == b[..0];
    } else {
      OrderMeans(a[1..], b[1..]);
      assert a == [a[0]] + a[1..] && b == [b[0]] + b[1..];
      if a[1..] < b[1..] {
        assert a < b;
      }
      if i :| 0 <= i < |a[1..]| && i < |b[1..]| && a[1..][..i] == b[1..][..i] && a[1..][i] < b[1..][i] {
        assert a[..i + 1] == [a[0]] + a[1..][..i] && b[..i + 1] == [b[0]] + b[1..][..i];
        assert a[i + 1] < b[i + 1];
      }
      if i :| 0 <= i < |a| && i < |b| && a[..i] == b[..i] && a[i] < b[i] {
        assert i > 0;
        assert a[1..][..i - 1] == a[..i][1..] && b[1..][..i - 1] == b[..i][1..];
        assert a[1..][i - 1] < b[1..][i - 1];
      }
    }
  }

  /** A regular file whose name ends in .xml and does not begin with a dot. */
  ghost predicate IsProfile(e: Entry) {
    e.regular && (exists stem :: e.name == stem + ".xml") && !(exists rest :: e.name == "." + rest)
  }

  lemma EligibleMeans(e: Entry)
    ensures Eligible(e) <==> IsProfile(e)
  {
    if Eligible(e) {
      assert e.name == e.name[..|e.name| - 4] + ".xml";
    }
    if e.name != "" && e.name[0] == '.' {
      assert e.name == "." + e.name[1..];
    }
  }

  /** The options after the profiles, as far as the last of them has a say. */
  lemma {:induction false} LastProfile(hardware: Option<DmiInfo>, o: Options, list: seq<Entry>, last: Entry)
    requires Readable(hardware, list + [last])
    ensures Readable(hardware, list) && Readable(hardware, [last])
    ensures EvaluateProfiles(hardware, o, list + [last])
         == EvaluateProfiles(hardware, EvaluateProfiles(hardware, o, list), [last])
    decreases |list|
  {
    assert forall e :: e in list || e == last ==> e in list + [last];
    if list == [] {
      assert [] + [last] == [last];
    } else {
      var all := list + [last];
      assert all[1..] == list[1..] + [last];
      assert Readable(hardware, list[1..] + [last]);
      var next := if list[0].profile.Some? then Evaluate(hardware, o, list[0].profile.value) else o;
      LastProfile(hardware, next, list[1..], last);
    }
  }

  lemma SortedLast(dir: seq<Entry>, e: Entry)
    requires DistinctNames(dir) && e in dir && IsProfile(e)
    requires forall x :: x in dir && IsProfile(x) && x != e ==> Before(x.name, e.name)
    ensures var list := Sort(Profiles(dir)); list != [] && list[|list| - 1] == e
  {
    var list := Sort(Profiles(dir));
    EligibleMeans(e);
    ProfilesCount(dir, e);
    assert e in multiset(Profiles(dir));
    SortElements(Profiles(dir));
    SortOrdered(Profiles(dir));
    ProfilesDistinct(dir);
    SortDistinct(Profiles(dir));
    ProfilesSubset(dir);
    hide Sort, Profiles, Eligible, Before, AtMost, IsProfile;
    var k :| 0 <= k < |list| && list[k] == e;
    var x := list[|list| - 1];
    assert x in list;
    EligibleMeans(x);
    OrderMeans(x.name, e.name);
    OrderMeans(e.name, e.name);
    AtMostTotal(x.name, e.name);
  }

  /** Of all profiles in the directory the one whose name comes last decides: if
      its one option element reads true or false, the option is so afterwards,
      whatever the other profiles say and in whatever order they are read. */
  lemma LastNameWins(hardware: DmiInfo, o: Options, dir: seq<Entry>, e: Entry, key: string, text: string)
    requires Readable(Some(hardware), dir) && DistinctNames(dir)
    requires e in dir && IsProfile(e) && e.profile.Some? && SetsOne(Some(hardware), e.profile.value, key, text)
    requires forall x :: x in dir && IsProfile(x) && x != e ==> Before(x.name, e.name)
    ensures exists before :: SetBy(before, FromProfiles(hardware, o, dir), key, text)
  {
    hide Sort, Profiles, Readable, EvaluateProfiles, SetBy, SetsOne, IsProfile;
    var list := Sort(Profiles(dir));
    LoadedReadable(Some(hardware), dir);
    SortedLast(dir, e);
    var front := list[..|list| - 1];
    assert list == front + [e];
    LastProfile(Some(hardware), o, front, e);
    var before := EvaluateProfiles(Some(hardware), o, front);
    OneProfile(Some(hardware), before, e);
    OneIsSet(Some(hardware), before, e.profile.value, key, text);
    assert SetBy(before, FromProfiles(hardware, o, dir), key, text);
  }

  lemma OneProfile(hardware: Option<DmiInfo>, o: Options, e: Entry)
    requires Readable(hardware, [e]) && e.profile.Some?
    ensures e.profile.value.Element? && NodeSound(hardware, e.profile.value)
    ensures EvaluateProfiles(hardware, o, [e]) == Evaluate(hardware, o, e.profile.value)
  {
    assert e in [e] && [e][1..] == [];
    var after := Evaluate(hardware, o, e.profile.value);
    assert EvaluateProfiles(hardware, o, [e]) == EvaluateProfiles(hardware, after, []);
  }

  // ---------- Key files ----------

  /** What a key file's entry makes of an option. */
  ghost function Told(file: KeyFile, group: string, key: string, before: bool): bool {
    if group in file && key in file[group] && file[group][key] in ["true", "1"] then true
    else if group in file && key in file[group] && file[group][key] in ["false", "0"] then false
    else before
  }

  ghost predicate ToldBy(o: Options, r: Options, file: KeyFile, group: string) {
    && r.keyControl == Told(file, group, "key_control", o.keyControl)
    && r.masterKey == Told(file, group, "master_key", o.masterKey)
    && r.forceSync == Told(file, group, "force_sync", o.forceSync)
    && r.persist == Told(file, group, "persist", o.persist)
    && r.strictFlightMode == Told(file, group, "strict_flight_mode", o.strictFlightMode)
  }

  /** The group "general" of the user's file comes last; before it, a cache with
      the group "Profile" stands in for the profiles. */
  lemma FilesDecide(s: Settings, hardware: DmiInfo, dir: seq<Entry>, writable: bool, user: Option<KeyFile>)
    requires Readable(Some(hardware), dir)
    ensures var between := ProfileLoaded(s, hardware, dir, writable).options;
      && (user.Some? ==> ToldBy(between, Load(s, hardware, dir, writable, user).options, user.value, "general"))
      && (user.None? ==> Load(s, hardware, dir, writable, user).options == between)
      && (s.configured.Some? && "Profile" in s.configured.value ==>
            ToldBy(s.options, between, s.configured.value, "Profile"))
      && (!(s.configured.Some? && "Profile" in s.configured.value) ==>
            between == FromProfiles(hardware, s.options, dir))
  {
    hide Pick, Told;
    forall file, group, key, before ensures Pick(file, group, key, before) == Told(file, group, key, before) {
      PickIsTold(file, group, key, before);
    }
  }

  lemma PickIsTold(file: KeyFile, group: string, key: string, before: bool)
    ensures Pick(file, group, key, before) == Told(file, group, key, before)
  {
  }

  /** The text a cache holds for an option. */
  ghost predicate CacheSays(file: KeyFile, key: string, value: bool) {
    "Profile" in file && key in file["Profile"] && file["Profile"][key] == if value then "true" else "false"
  }

  /** Options that were read from profiles are written to the cache, if that can be
      written; options that came from it leave it alone. */
  lemma CacheHolds(s: Settings, hardware: DmiInfo, dir: seq<Entry>, writable: bool)
    requires Readable(Some(hardware), dir)
    ensures var t := ProfileLoaded(s, hardware, dir, writable);
      if s.configured.Some? && "Profile" in s.configured.value then t.configured == s.configured
      else if !writable then t.configured.None?
      else
        && t.configured.Some?
        && CacheSays(t.configured.value, "key_control", t.options.keyControl)
        && CacheSays(t.configured.value, "master_key", t.options.masterKey)
        && CacheSays(t.configured.value, "force_sync", t.options.forceSync)
        && CacheSays(t.configured.value, "persist", t.options.persist)
        && CacheSays(t.configured.value, "strict_flight_mode", t.options.strictFlightMode)
  {
  }

  /** Without any of these files and without profiles the options are the program's own. */
  lemma NothingConfigured(hardware: DmiInfo, writable: bool)
    ensures Load(Settings(DEFAULTS, None), hardware, [], writable, None).options
         == Options(true, false, false, true, true)
  {
    assert Profiles([]) == [] && Sort([]) == [];
  }
}
