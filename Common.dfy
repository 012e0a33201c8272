/**
 * Values shared by every part of the model: nullable references, error
 * outcomes, C# `uint` arithmetic, entity identities and the list operations
 * (`List<T>.Remove`, `IndexOf`, LINQ `Where`) the source relies on.
 */
module Common {

  /** A reference or value that may be null. */
  datatype Option<T> = None | Some(value: T)

  /** The value, if any, as a sequence: null contributes nothing. */
  function Elements<T>(o: Option<T>): (r: seq<T>)
    ensures o.None? ==> r == []
    ensures o.Some? ==> r == [o.value]
  {
    if o.None? then [] else [o.value]
  }

  /** `string.IsNullOrEmpty(s)`, with null as `None`. */
  predicate NullOrEmpty(s: Option<string>)
  {
    s.None? || s.value == ""
  }

  /** The result of a `void` operation that may throw. */
  datatype Outcome<E> = Pass | Fail(error: E)

  /** The result of an operation that returns a value or throws. */
  datatype Result<T, E> = Ok(value: T) | Err(error: E)

  const U32_LIMIT: int := 0x1_0000_0000

  /** C# `uint`. */
  type u32 = x: int | 0 <= x < 0x1_0000_0000

  /** `a + b` on `uint` in an unchecked context: wraps modulo 2^32. */
  function AddU32(a: u32, b: u32): (r: u32)
    ensures a + b < U32_LIMIT ==> r == a + b
    ensures U32_LIMIT <= a + b ==> r == a + b - U32_LIMIT
  {
    (a + b) % U32_LIMIT
  }

  /** `a - b` on `uint` in an unchecked context: wraps below zero. */
  function SubU32(a: u32, b: u32): (r: u32)
    ensures b <= a ==> r == a - b
    ensures a < b ==> r == a - b + U32_LIMIT
  {
    (a - b) % U32_LIMIT
  }

  /** A game entity (`EntityBase`), known only by its identity. */
  datatype Entity = Entity(id: nat)

  /** No element occurs twice. */
  predicate NoDups<T(==)>(s: seq<T>) {
    forall i, j :: 0 <= i < j < |s| ==> s[i] != s[j]
  }

  /** The subsequence of `s` whose elements satisfy `p`, in order (LINQ `Where`). */
  function Filter<T>(s: seq<T>, p: T -> bool): (r: seq<T>)
    ensures |r| <= |s|
  {
    if s == [] then []
    else if p(s[0]) then [s[0]] + Filter(s[1..], p)
    else Filter(s[1..], p)
  }

  lemma {:induction false} FilterMembers<T>(s: seq<T>, p: T -> bool, x: T)
    ensures x in Filter(s, p) <==> x in s && p(x)
  {
    if s != [] {
      FilterMembers(s[1..], p, x);
      assert s == [s[0]] + s[1..];
    }
  }

  lemma {:induction false} FilterAppend<T>(s: seq<T>, t: seq<T>, p: T -> bool)
    ensures Filter(s + t, p) == Filter(s, p) + Filter(t, p)
  {
    if s == [] {
      assert s + t == t;
    } else {
      assert (s + t)[1..] == s[1..] + t;
      FilterAppend(s[1..], t, p);
    }
  }

  lemma {:induction false} FilterNoDups<T>(s: seq<T>, p: T -> bool)
    requires NoDups(s)
    ensures NoDups(Filter(s, p))
  {
    if s != [] {
      FilterNoDups(s[1..], p);
      FilterMembers(s[1..], p, s[0]);
    }
  }

  /** `List<T>.IndexOf`: the first index holding `x`, or -1. */
  function IndexOf<T(==)>(s: seq<T>, x: T): (r: int)
    ensures -1 <= r < |s|
    ensures r == -1 <==> x !in s
    ensures 0 <= r ==> s[r] == x && x !in s[..r]
  {
    if s == [] then -1
    else if s[0] == x then 0
    else
      var k := IndexOf(s[1..], x);
      assert s[1..][..if k < 0 then 0 else k] == s[1..if k < 0 then 1 else k + 1];
      if k == -1 then -1 else k + 1
  }

  /** `List<T>.RemoveAt`. */
  function RemoveAt<T>(s: seq<T>, i: nat): (r: seq<T>)
    requires i < |s|
    ensures |r| == |s| - 1
    ensures forall j :: 0 <= j < i ==> r[j] == s[j]
    ensures forall j :: i <= j < |r| ==> r[j] == s[j + 1]
  {
    s[..i] + s[i + 1..]
  }

  lemma RemoveAtNoDups<T>(s: seq<T>, i: nat)
    requires i < |s| && NoDups(s)
    ensures NoDups(RemoveAt(s, i))
    ensures s[i] !in RemoveAt(s, i)
    ensures forall x :: x in RemoveAt(s, i) <==> x in s && x != s[i]
  {
    var r := RemoveAt(s, i);
    forall x | x in s && x != s[i] ensures x in r {
      var j :| 0 <= j < |s| && s[j] == x;
      if j < i { assert r[j] == x; } else { assert r[j - 1] == x; }
    }
  }

  /** `List<T>.Remove`: drops the first occurrence of `x`, if any. */
  function RemoveFirst<T(==)>(s: seq<T>, x: T): (r: seq<T>)
    ensures x !in s ==> r == s
    ensures x in s ==> r == RemoveAt(s, IndexOf(s, x))
  {
    var i := IndexOf(s, x);
    if i < 0 then s else RemoveAt(s, i)
  }

  /** Removing `t[i]`, whose first occurrence is at `i`, removes index `i`. */
  lemma RemoveFirstAt<T>(t: seq<T>, i: nat)
    requires i < |t| && t[i] !in t[..i]
    ensures RemoveFirst(t, t[i]) == t[..i] + t[i + 1..]
  {
    assert forall k :: 0 <= k < i ==> t[k] in t[..i];
    assert forall m :: i < m <= |t| ==> t[i] in t[..m];
  }

  /** `dst.Add(key, value)` for every entry of `src`, a repeated key overwriting the older entry. */
  method CopyEntries<K, V>(dst: map<K, V>, src: map<K, V>) returns (r: map<K, V>)
    ensures r == dst + src
  {
    r := dst;
    var keys := src.Keys;
    while keys != {}
      invariant keys <= src.Keys
      invariant CopiedExcept(r, dst, src, keys)
      decreases |keys|
    {
      var k :| k in keys;
      CopiedStep(r, dst, src, keys, k);
      r := r[k := src[k]];
      keys := keys - {k};
    }
    CopiedAll(r, dst, src);
  }

  /** `r` is `dst` with every entry of `src` copied over except those whose keys are still in `keys`. */
  ghost predicate CopiedExcept<K, V>(r: map<K, V>, dst: map<K, V>, src: map<K, V>, keys: set<K>)
  {
    r.Keys == dst.Keys + (src.Keys - keys) &&
    forall k :: k in r ==> r[k] == if k in src && k !in keys then src[k] else dst[k]
  }

  lemma CopiedAll<K, V>(r: map<K, V>, dst: map<K, V>, src: map<K, V>)
    requires CopiedExcept(r, dst, src, {})
    ensures r == dst + src
  {
    assert r.Keys == (dst + src).Keys;
  }

  lemma CopiedStep<K, V>(r: map<K, V>, dst: map<K, V>, src: map<K, V>, keys: set<K>, k: K)
    requires CopiedExcept(r, dst, src, keys) && k in keys && keys <= src.Keys
    ensures CopiedExcept(r[k := src[k]], dst, src, keys - {k})
  {
  }

  /** Writing a key's own value back changes nothing. */
  lemma MapUpdateSame<K, V>(m: map<K, V>, k: K)
    requires k in m
    ensures m[k := m[k]] == m
  {
  }

  /** Some member of a non-empty set. */
  lemma Pick<T>(s: set<T>) returns (x: T)
    requires s != {}
    ensures x in s
  {
    x :| x in s;
  }

  /** Updating a key and then removing it is removing it. */
  lemma MapUpdateMinus<K, V>(m: map<K, V>, k: K, v: V)
    ensures m[k := v] - {k} == m - {k}
  {
  }

  /** A second write to a key replaces the first. */
  lemma MapUpdateTwice<K, V>(m: map<K, V>, k: K, a: V, b: V)
    ensures m[k := a][k := b] == m[k := b]
  {
  }

  /** The index of the last occurrence of `x` in `s`, or -1 when there is none. */
  function LastIndexOf<T(==)>(s: seq<T>, x: T): (j: int)
    ensures -1 <= j < |s|
    ensures j == -1 <==> x !in s
    ensures 0 <= j ==> s[j] == x && forall k :: j < k < |s| ==> s[k] != x
  {
    if s == [] then -1
    else if s[|s| - 1] == x then |s| - 1
    else
      assert s == s[..|s| - 1] + [s[|s| - 1]];
      LastIndexOf(s[..|s| - 1], x)
  }

  /** `Delegate.Remove` for a single listener: drops the last occurrence of `x`, if any. */
  function RemoveLast<T(==)>(s: seq<T>, x: T): (r: seq<T>)
    ensures x !in s ==> r == s
    ensures x in s ==> |r| == |s| - 1
  {
    var j := LastIndexOf(s, x);
    if j < 0 then s else s[..j] + s[j + 1..]
  }
}
