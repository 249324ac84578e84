/** What the modules share: optional values and removal from a list. */
module Common {

  datatype Option<+T> = None | Some(value: T)

  function Listed<T>(x: Option<T>): seq<T> {
    if x.Some? then [x.value] else []
  }

  /** g_list_remove: drops the first link that holds x. */
  function Without<T(==)>(list: seq<T>, x: T): (w: seq<T>)
    ensures forall y :: y in w ==> y in list
  {
    if list == [] then [] else if list[0] == x then list[1..] else [list[0]] + Without(list[1..], x)
  }

  lemma {:induction false} WithoutKeeps<T>(list: seq<T>, x: T)
    ensures forall y :: y in list && y != x ==> y in Without(list, x)
  {
    if list == [] {
    } else {
      WithoutKeeps(list[1..], x);
    }
  }

  lemma {:induction false} WithoutSkips<T>(a: seq<T>, b: seq<T>, x: T)
    requires x !in a
    ensures Without(a + b, x) == a + Without(b, x)
  {
    if a == [] {
      assert a + b == b;
    } else {
      assert (a + b)[1..] == a[1..] + b;
      WithoutSkips(a[1..], b, x);
    }
  }

  lemma WithoutNothing<T>(list: seq<T>, x: T)
    requires x !in list
    ensures Without(list, x) == list
  {
    WithoutSkips(list, [], x);
    assert list + [] == list;
  }

  lemma WithoutMiddle<T>(a: seq<T>, x: T, b: seq<T>)
    requires x !in a
    ensures Without(a + [x] + b, x) == a + b
  {
    assert a + [x] + b == a + ([x] + b);
    WithoutSkips(a, [x] + b, x);
  }
}
