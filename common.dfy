/** Small value types shared by every part of the catalog service model:
    nullable values, the string tests the C# code uses, and 32-bit integer
    arithmetic. */
module Common {

  /** A C# nullable value (`int?`, `double?`, a `string` that may be null). */
  datatype Option<+T> = None | Some(value: T)

  /** `string.IsNullOrEmpty` on a string that may be null. */
  predicate IsNullOrEmpty(s: Option<string>)
    ensures !IsNullOrEmpty(s) ==> s.Some? && |s.value| >= 1
  {
    s.None? || s.value == ""
  }

  /** An optional id parameter counts as given only when present and positive. */
  predicate IdSet(x: Option<int>)
  {
    x.Some? && x.value > 0
  }

  /** An optional price parameter counts as given only when present and positive. */
  predicate PriceSet(x: Option<real>)
  {
    x.Some? && x.value > 0.0
  }

  /** An optional text parameter counts as given only when neither null nor empty. */
  predicate TextSet(x: Option<string>)
  {
    !IsNullOrEmpty(x)
  }

  /** `p` is a prefix of `s`. */
  predicate IsPrefix(p: string, s: string)
  {
    |p| <= |s| && s[..|p|] == p
  }

  /** Ordinal `string.Contains(sub)`: `sub` occurs somewhere in `s`. */
  predicate Contains(s: string, sub: string)
    ensures Contains(s, sub) ==> |sub| <= |s|
    ensures IsPrefix(sub, s) ==> Contains(s, sub)
    decreases |s|
  {
    IsPrefix(sub, s) || (s != [] && Contains(s[1..], sub))
  }

  /** `sub` occurs in `s` starting at offset `i`. */
  predicate OccursAt(s: string, sub: string, i: int)
  {
    0 <= i <= |s| - |sub| && s[i..i + |sub|] == sub
  }

  /** `Contains` holds exactly when `sub` occurs at some offset of `s`. */
  lemma {:induction false} ContainsAt(s: string, sub: string)
    ensures Contains(s, sub) <==> exists i :: OccursAt(s, sub, i)
    decreases |s|
  {
    if IsPrefix(sub, s) {
      assert OccursAt(s, sub, 0);
    } else if s == [] {
    } else {
      ContainsAt(s[1..], sub);
      if exists i :: OccursAt(s, sub, i) {
        var i :| OccursAt(s, sub, i);
        assert i != 0;
        assert OccursAt(s[1..], sub, i - 1);
      }
      if exists j :: OccursAt(s[1..], sub, j) {
        var j :| OccursAt(s[1..], sub, j);
        assert OccursAt(s, sub, j + 1);
      }
    }
  }

  const Int32Min: int := -0x8000_0000
  const Int32Max: int := 0x7FFF_FFFF

  /** The value fits in a C# `int`. */
  predicate IsInt32(x: int)
  {
    Int32Min <= x <= Int32Max
  }

  /** Unchecked C# `int` arithmetic: the mathematical result reduced
      modulo 2^32 into the signed 32-bit range. */
  function WrapInt32(x: int): (r: int)
    ensures IsInt32(r)
    ensures IsInt32(x) ==> r == x
    ensures (x - r) % 0x1_0000_0000 == 0
  {
    (x - Int32Min) % 0x1_0000_0000 + Int32Min
  }
}
