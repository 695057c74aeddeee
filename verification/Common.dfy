/** Vocabulary shared by every module: optional values, fixed-width counters and
    facts about sequences without repetition. */
module Common {
  datatype Option<+T> = None | Some(value: T)

  const TWO_TO_32: int := 0x1_0000_0000

  /** The firmware's `uint32_t`. */
  type u32 = x: int | 0 <= x < TWO_TO_32

  /** Addition of `uint32_t` values, which wraps around. */
  function AddU32(a: u32, b: u32): u32 {
    (a + b) % TWO_TO_32
  }

  lemma AddNoWrap(a: u32, b: u32)
    requires a + b < TWO_TO_32
    ensures AddU32(a, b) == a + b
  {
  }

  /** Subtraction of `uint32_t` values, which wraps around. */
  function SubU32(a: u32, b: u32): u32 {
    (a - b) % TWO_TO_32
  }

  /** Reinterpretation of a `uint32_t` as an `int32_t`. */
  function ToSigned(a: u32): int {
    if a < 0x8000_0000 then a else a - TWO_TO_32
  }

  ghost predicate Distinct<T(!new)>(s: seq<T>) {
    forall i, j :: 0 <= i < j < |s| ==> s[i] != s[j]
  }

  /** The sequence without its element at position i. */
  function Without<T>(s: seq<T>, i: nat): seq<T>
    requires i < |s|
  {
    s[..i] + s[i + 1..]
  }

  function Min(a: nat, b: nat): nat {
    if a < b then a else b
  }

  /** A buffer with some of its bytes replaced. */
  function Overlaid(buf: seq<bv8>, at: nat, bytes: seq<bv8>): (r: seq<bv8>)
    requires at + |bytes| <= |buf|
    ensures |r| == |buf|
  {
    buf[..at] + bytes + buf[at + |bytes|..]
  }

  lemma TakeSnoc<T>(s: seq<T>, i: nat)
    requires i < |s|
    ensures s[..i + 1] == s[..i] + [s[i]] && s[..i + 1][..i] == s[..i]
  {
  }

  lemma TakeAll<T>(s: seq<T>)
    ensures s[..|s|] == s
  {
  }

  /** Pigeonhole: a repetition-free sequence of numbers below n has at most n elements. */
  lemma {:induction false} Pigeonhole(s: seq<nat>, n: nat)
    requires Distinct(s)
    requires forall x :: x in s ==> x < n
    ensures |s| <= n
  {
    if s == [] {
      return;
    }
    assert s[0] in s;
    if n - 1 in s {
      var i :| 0 <= i < |s| && s[i] == n - 1;
      var t := Without(s, i);
      forall x | x in t ensures x < n - 1 {
        var j :| 0 <= j < |t| && t[j] == x;
        var l := if j < i then j else j + 1;
        assert x == s[l] && s[l] in s;
      }
      Pigeonhole(t, n - 1);
    } else {
      Pigeonhole(s, n - 1);
    }
  }

  /** A repetition-free sequence of n numbers below n contains every number below n. */
  lemma {:induction false} Surjective(s: seq<nat>, n: nat, k: nat)
    requires Distinct(s) && |s| == n && k < n
    requires forall x :: x in s ==> x < n
    ensures k in s
  {
    if k !in s {
      var t := s + [k];
      Pigeonhole(t, n);
    }
  }
}
