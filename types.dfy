/** Entities of the keymap library (src/types.ts) and the one array
    primitive every lookup in the library is built on: "the first element
    that satisfies a test" (Array.prototype.find / findIndex). */
module Types {

  datatype Option<+T> = None | Some(value: T)

  /** An opaque stand-in for a handler callback: the model never calls
      handlers, it reports which entry's handler would be called. */
  type HandlerId = nat

  /** An unprocessed binding as the caller passes it in. */
  datatype KeyMap = KeyMap(keys: string, handler: HandlerId, desc: Option<string>)

  /** A processed binding: the caller's string is kept in `rawKeys`,
      `keys` is its canonical (lowercased) form and `keyList` its tokens. */
  datatype HandledKeyMap = HandledKeyMap(
    rawKeys: string,
    keys: string,
    keyList: seq<string>,
    handler: HandlerId,
    desc: Option<string>)

  /** What the `maps` getter hands out: an entry without its handler. */
  datatype MapSnapshot = MapSnapshot(
    rawKeys: string,
    keys: string,
    keyList: seq<string>,
    desc: Option<string>)

  /** The two tracking strategies a registry can be configured with. */
  datatype KeymapStrategy = RecordAll | RecordCompose

  /** `r` is the index of the first element of `s` that satisfies `p`,
      or None when no element does. */
  ghost predicate IsFirst<T>(s: seq<T>, p: T -> bool, r: Option<nat>) {
    match r
    case Some(i) => i < |s| && p(s[i]) && forall j :: 0 <= j < i ==> !p(s[j])
    case None => forall j :: 0 <= j < |s| ==> !p(s[j])
  }

  /** Linear search from position `from` onwards. */
  function FirstFrom<T>(s: seq<T>, p: T -> bool, from: nat): (r: Option<nat>)
    requires from <= |s|
    requires forall j :: 0 <= j < from ==> !p(s[j])
    ensures IsFirst(s, p, r)
    decreases |s| - from
  {
    if from == |s| then None
    else if p(s[from]) then Some(from)
    else FirstFrom(s, p, from + 1)
  }

  /** Index of the first element of `s` satisfying `p` (find / findIndex). */
  function FirstIndex<T>(s: seq<T>, p: T -> bool): (r: Option<nat>)
    ensures IsFirst(s, p, r)
    ensures r.Some? <==> exists j :: 0 <= j < |s| && p(s[j])
  {
    FirstFrom(s, p, 0)
  }

  /** The search result is determined by its specification. */
  lemma IsFirstUnique<T>(s: seq<T>, p: T -> bool, r1: Option<nat>, r2: Option<nat>)
    requires IsFirst(s, p, r1) && IsFirst(s, p, r2)
    ensures r1 == r2
  {
  }

  /** Over a one-element list the search fires that element or nothing. */
  lemma IsFirstSingle<T>(x: T, p: T -> bool, r: Option<nat>)
    requires IsFirst([x], p, r)
    ensures p(x) ==> r == Some(0)
    ensures !p(x) ==> r == None
  {
    assert [x][0] == x;
  }

  /** Over a two-element list whose first element fails the test, the
      search fires the second or nothing. */
  lemma IsFirstSecond<T>(x: T, y: T, p: T -> bool, r: Option<nat>)
    requires IsFirst([x, y], p, r) && !p(x)
    ensures p(y) ==> r == Some(1)
    ensures !p(y) ==> r == None
  {
    assert [x, y][0] == x && [x, y][1] == y;
  }

  /** No key of `s` occurs twice. */
  predicate Distinct(s: seq<string>) {
    forall i, j :: 0 <= i < j < |s| ==> s[i] != s[j]
  }

  /** The elements of a sequence, as a set. */
  function Elements(s: seq<string>): (r: set<string>)
    ensures forall x :: x in r <==> x in s
  {
    set x | x in s
  }

  /** A sequence has at most as many distinct elements as positions, and
      exactly as many when no element repeats. */
  lemma {:induction false} ElementsCard(s: seq<string>)
    ensures |Elements(s)| <= |s|
    ensures Distinct(s) ==> |Elements(s)| == |s|
    decreases |s|
  {
    if s != [] {
      ElementsCard(s[1..]);
      assert Elements(s) == {s[0]} + Elements(s[1..]);
      if Distinct(s) {
        assert s[0] !in s[1..];
        assert Distinct(s[1..]) by {
          forall i, j | 0 <= i < j < |s| - 1 ensures s[1..][i] != s[1..][j] {
            assert s[i + 1] != s[j + 1];
          }
        }
      }
    }
  }

  /** A subset is no larger than its superset, and equal to it when the
      two have the same size. */
  lemma {:induction false} SubsetCard(a: set<string>, b: set<string>)
    requires a <= b
    ensures |a| <= |b|
    ensures |a| == |b| ==> a == b
    decreases |a|
  {
    if a != {} {
      var x :| x in a;
      SubsetCard(a - {x}, b - {x});
      assert a == (a - {x}) + {x};
      assert b == (b - {x}) + {x};
    } else if |b| == 0 {
      assert b == {};
    }
  }

  /** Pigeonhole: when `s` has no repeats, `t` is no longer than `s` and
      every element of `s` is in `t`, then every element of `t` is in `s`. */
  lemma CoveredBothWays(s: seq<string>, t: seq<string>)
    requires Distinct(s) && |t| <= |s|
    requires forall x :: x in s ==> x in t
    ensures forall x :: x in t ==> x in s
  {
    ElementsCard(s);
    ElementsCard(t);
    SubsetCard(Elements(s), Elements(t));
  }
}
