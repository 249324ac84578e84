/** Matching a DMI string against the rule of a profile (match_rule, urf-config.c). */
module MatchRule {

  datatype Operator =
    | Whole | WholeOutof
    | Contains | ContainsNcase | ContainsNot | ContainsOutof
    | Prefix | PrefixNcase | PrefixOutof
    | Suffix | SuffixNcase | SuffixOutof
    | Unknown

  // ---------- GLib's string functions ----------

  predicate HasPrefix(s: string, t: string) {
    t <= s
  }

  predicate HasSuffix(s: string, t: string) {
    |t| <= |s| && s[|s| - |t|..] == t
  }

  predicate Occurs(s: string, t: string) {
    exists i :: 0 <= i <= |s| && HasPrefix(s[i..], t)
  }

  function LowerChar(c: char): char {
    if 'A' <= c <= 'Z' then ((c as int) + 32) as char else c
  }

  /** g_ascii_strdown. */
  function Lower(s: string): (r: string)
    ensures |r| == |s| && forall i :: 0 <= i < |s| ==> r[i] == LowerChar(s[i])
  {
    seq(|s|, i requires 0 <= i < |s| => LowerChar(s[i]))
  }

  /** g_strsplit on ';': the pieces between the separators, empty ones included. */
  function Split(s: string): (pieces: seq<string>)
    ensures s != "" ==> pieces != []
  {
    if s == "" then [] else SplitFrom(s)
  }

  function SplitFrom(s: string): (pieces: seq<string>)
    ensures pieces != []
  {
    if s == "" then [""]
    else
      var rest := SplitFrom(s[1..]);
      if s[0] == ';' then [""] + rest else [[s[0]] + rest[0]] + rest[1..]
  }

  function Join(pieces: seq<string>): string
    requires pieces != []
  {
    if |pieces| == 1 then pieces[0] else pieces[0] + ";" + Join(pieces[1..])
  }

  /** Splitting loses nothing, and no piece holds a separator. */
  lemma {:induction false} SplitJoins(s: string)
    ensures Join(SplitFrom(s)) == s
    ensures forall p :: p in SplitFrom(s) ==> ';' !in p
  {
    if s == "" {
    } else {
      SplitJoins(s[1..]);
      var rest := SplitFrom(s[1..]);
      assert s == [s[0]] + s[1..];
      if s[0] == ';' {
        assert ([""] + rest)[1..] == rest;
      } else {
        assert SplitFrom(s)[1..] == rest[1..];
        assert Join(SplitFrom(s)) == [s[0]] + Join(rest);
      }
    }
  }

  /** The pieces are the only ones without separators that join to the string. */
  lemma {:induction false} SplitUnique(pieces: seq<string>)
    requires pieces != [] && forall p :: p in pieces ==> ';' !in p
    ensures SplitFrom(Join(pieces)) == pieces
    decreases |pieces|, |pieces[0]|
  {
    var s := Join(pieces);
    if pieces[0] != "" {
      var shorter := [pieces[0][1..]] + pieces[1..];
      assert pieces[0] in pieces;
      SplitUnique(shorter);
      assert shorter[1..] == pieces[1..];
      assert s == [pieces[0][0]] + Join(shorter);
      assert [pieces[0][0]] + pieces[0][1..] == pieces[0];
      assert pieces == [pieces[0]] + pieces[1..];
    } else if |pieces| > 1 {
      SplitUnique(pieces[1..]);
      assert s == [';'] + Join(pieces[1..]);
      assert pieces == [""] + pieces[1..];
    } else {
      assert pieces == [""];
    }
  }

  // ---------- The rule ----------

  /** The operators that look at one string, on non-empty strings. */
  predicate Basic(s: string, operator: Operator, t: string)
    requires !operator.WholeOutof? && !operator.ContainsOutof? && !operator.PrefixOutof? && !operator.SuffixOutof?
  {
    match operator
    case Whole => s == t
    case Contains => Occurs(s, t)
    case ContainsNcase => Occurs(Lower(s), Lower(t))
    case ContainsNot => !Occurs(s, t)
    case Prefix => HasPrefix(s, t)
    case PrefixNcase => HasPrefix(Lower(s), Lower(t))
    case Suffix => HasSuffix(s, t)
    case SuffixNcase => HasSuffix(Lower(s), Lower(t))
    case Unknown => false
  }

  /** Some piece satisfies the operator; empty pieces never do. */
  predicate AnyPiece(s: string, operator: Operator, pieces: seq<string>)
    requires !operator.WholeOutof? && !operator.ContainsOutof? && !operator.PrefixOutof? && !operator.SuffixOutof?
  {
    exists p :: p in pieces && p != "" && Basic(s, operator, p)
  }

  /** What match_rule decides. */
  predicate Matches(s: string, operator: Operator, t: string) {
    && s != "" && t != ""
    && match operator
       case WholeOutof => AnyPiece(s, Whole, Split(t))
       case ContainsOutof => AnyPiece(s, Contains, Split(t))
       case PrefixOutof => AnyPiece(s, Prefix, Split(t))
       case SuffixOutof => AnyPiece(s, Suffix, Split(t))
       case _ => Basic(s, operator, t)
  }

  /** The loop of the operators that skip empty pieces. */
  method DecideOutof(str1: string, operator: Operator, str2: string) returns (found: bool)
    requires operator.Contains? || operator.Prefix? || operator.Suffix?
    ensures found == AnyPiece(str1, operator, Split(str2))
  {
    var token := Split(str2);
    var i := 0;
    while i < |token|
      invariant 0 <= i <= |token|
      invariant forall j :: 0 <= j < i ==> token[j] == "" || !Basic(str1, operator, token[j])
    {
      if |token[i]| >= 1 {
        if Basic(str1, operator, token[i]) {
          return true;
        }
      }
      i := i + 1;
    }
    found := false;
  }

  /** The loop of string_outof, which compares every piece. */
  method DecideWholeOutof(str1: string, str2: string) returns (found: bool)
    requires str1 != ""
    ensures found == AnyPiece(str1, Whole, Split(str2))
  {
    var token := Split(str2);
    var i := 0;
    while i < |token|
      invariant 0 <= i <= |token|
      invariant forall j :: 0 <= j < i ==> !Basic(str1, Whole, token[j])
    {
      if str1 == token[i] {
        assert Basic(str1, Whole, token[i]);
        return true;
      }
      i := i + 1;
    }
    found := false;
  }

  /** match_rule itself. */
  method Decide(str1: string, operator: Operator, str2: string) returns (found: bool)
    ensures found == Matches(str1, operator, str2)
  {
    if |str1| < 1 || |str2| < 1 {
      return false;
    }
    match operator
    case Whole => found := str1 == str2;
    case WholeOutof => found := DecideWholeOutof(str1, str2);
    case Contains => found := Occurs(str1, str2);
    case ContainsNcase => found := Occurs(Lower(str1), Lower(str2));
    case ContainsNot => found := !Occurs(str1, str2);
    case ContainsOutof => found := DecideOutof(str1, Contains, str2);
    case Prefix => found := HasPrefix(str1, str2);
    case PrefixNcase => found := HasPrefix(Lower(str1), Lower(str2));
    case PrefixOutof => found := DecideOutof(str1, Prefix, str2);
    case Suffix => found := HasSuffix(str1, str2);
    case SuffixNcase => found := HasSuffix(Lower(str1), Lower(str2));
    case SuffixOutof => found := DecideOutof(str1, Suffix, str2);
    case Unknown => found := false;
  }

  // ---------- Laws ----------

  /** The operator whose condition an _outof operator applies to each piece. */
  function Base(operator: Operator): Operator {
    match operator
    case WholeOutof => Whole
    case ContainsOutof => Contains
    case PrefixOutof => Prefix
    case SuffixOutof => Suffix
    case ContainsNcase => Contains
    case PrefixNcase => Prefix
    case SuffixNcase => Suffix
    case _ => operator
  }

  predicate IsOutof(operator: Operator) {
    operator.WholeOutof? || operator.ContainsOutof? || operator.PrefixOutof? || operator.SuffixOutof?
  }

  predicate IsNcase(operator: Operator) {
    operator.ContainsNcase? || operator.PrefixNcase? || operator.SuffixNcase?
  }

  /** However the rule is cut at its separators: an _outof operator holds exactly
      when its base operator holds for some non-empty piece. */
  lemma OutofMeansSomePiece(s: string, operator: Operator, pieces: seq<string>)
    requires IsOutof(operator) && pieces != [] && forall p :: p in pieces ==> ';' !in p
    requires s != "" && Join(pieces) != ""
    ensures Matches(s, operator, Join(pieces)) <==> exists p :: p in pieces && p != "" && Matches(s, Base(operator), p)
  {
    SplitUnique(pieces);
    assert Split(Join(pieces)) == pieces;
    if p :| p in pieces && p != "" && Matches(s, Base(operator), p) {
      assert Basic(s, Base(operator), p);
    }
  }

  /** contains_not negates contains exactly on non-empty strings; both fail otherwise. */
  lemma ContainsNotNegates(s: string, t: string)
    ensures (Matches(s, ContainsNot, t) == !Matches(s, Contains, t)) <==> s != "" && t != ""
    ensures s == "" || t == "" ==> !Matches(s, ContainsNot, t) && !Matches(s, Contains, t)
  {
  }

  /** An _ncase operator is its base operator on lowered strings, so the case of
      ASCII letters never matters to it. */
  lemma NcaseLowers(s: string, operator: Operator, t: string, s': string, t': string)
    requires IsNcase(operator)
    ensures Matches(s, operator, t) <==> Matches(Lower(s), Base(operator), Lower(t))
    ensures Lower(s) == Lower(s') && Lower(t) == Lower(t') ==> (Matches(s, operator, t) <==> Matches(s', operator, t'))
  {
    assert |Lower(s)| == |s| && |Lower(t)| == |t| && |Lower(s')| == |s'| && |Lower(t')| == |t'|;
  }

  /** Contains finds the rule's text anywhere in the string. */
  lemma ContainsMeans(s: string, t: string)
    requires s != "" && t != ""
    ensures Matches(s, Contains, t) <==> exists a, b :: s == a + t + b
  {
    if Matches(s, Contains, t) {
      var i :| 0 <= i <= |s| && HasPrefix(s[i..], t);
      assert s == s[..i] + t + s[i + |t|..];
    }
    if a, b :| s == a + t + b {
      assert s[|a|..] == t + b;
      assert HasPrefix(s[|a|..], t);
    }
  }

  lemma EndsMean(s: string, t: string)
    requires s != "" && t != ""
    ensures Matches(s, Prefix, t) <==> exists b :: s == t + b
    ensures Matches(s, Suffix, t) <==> exists a :: s == a + t
  {
    if Matches(s, Prefix, t) {
      assert s == t + s[|t|..];
    }
    if Matches(s, Suffix, t) {
      assert s == s[..|s| - |t|] + t;
    }
  }

  /** string is the strongest operator; prefix and suffix each imply contains. */
  lemma WholeImpliesParts(s: string, t: string)
    ensures Matches(s, Whole, t) ==> Matches(s, Prefix, t) && Matches(s, Suffix, t)
    ensures Matches(s, Prefix, t) || Matches(s, Suffix, t) ==> Matches(s, Contains, t)
  {
    if s != "" && t != "" {
      if HasPrefix(s, t) {
        assert HasPrefix(s[0..], t);
      }
      if HasSuffix(s, t) {
        assert HasPrefix(s[|s| - |t|..], t);
      }
    }
  }
}
