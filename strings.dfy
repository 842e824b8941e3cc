/**
 * Text as the Rust code sees it. A Dafny `string` is a sequence of Unicode scalar
 * values, which is what Rust's `str::chars()` yields; `str::len()` is a byte count
 * in UTF-8, so it is modelled separately as `ByteLen`. `String`'s `Ord` compares
 * UTF-8 bytes, which orders strings exactly as comparing their scalar values one
 * by one does, so `Compare` works on characters.
 */
module Strings {

  /** Number of bytes UTF-8 needs for the scalar value `c`. */
  function Utf8Len(c: char): (n: nat)
    ensures 1 <= n <= 4
    ensures n == 1 <==> (c as int) < 0x80
  {
    if (c as int) < 0x80 then 1
    else if (c as int) < 0x800 then 2
    else if (c as int) < 0x10000 then 3
    else 4
  }

  /** Rust's `str::len`: the length of `s` in UTF-8 bytes. */
  function ByteLen(s: string): (n: nat)
    ensures |s| <= n <= 4 * |s|
  {
    if s == [] then 0 else Utf8Len(s[0]) + ByteLen(s[1..])
  }

  predicate IsAscii(s: string) {
    forall i | 0 <= i < |s| :: (s[i] as int) < 0x80
  }

  /** For ASCII text the byte length and the character count agree. */
  lemma {:induction false} AsciiByteLen(s: string)
    requires IsAscii(s)
    ensures ByteLen(s) == |s|
  {
    if s != [] {
      assert IsAscii(s[1..]) by {
        forall i | 0 <= i < |s[1..]| ensures (s[1..][i] as int) < 0x80 {
          assert s[1..][i] == s[i + 1];
        }
      }
      AsciiByteLen(s[1..]);
    }
  }

  /** A string of exactly one UTF-8 byte is a single ASCII character. */
  lemma ByteLenOne(s: string)
    requires ByteLen(s) == 1
    ensures |s| == 1 && (s[0] as int) < 0x80
  {
    assert s != [];
    assert ByteLen(s[1..]) >= |s[1..]|;
  }

  /** A string whose first character is not ASCII is at least two bytes long. */
  lemma NonAsciiHeadByteLen(s: string)
    requires s != [] && (s[0] as int) >= 0x80
    ensures ByteLen(s) >= 2
  {
  }

  datatype Ordering = Less | Equal | Greater

  /** `Ord::cmp` on Rust strings: lexicographic, a proper prefix first. */
  function Compare(a: string, b: string): (r: Ordering)
    ensures r == Equal <==> a == b
  {
    if a == [] then (if b == [] then Equal else Less)
    else if b == [] then Greater
    else if a[0] < b[0] then Less
    else if b[0] < a[0] then Greater
    else
      assert a == [a[0]] + a[1..] && b == [b[0]] + b[1..];
      Compare(a[1..], b[1..])
  }

  predicate Lt(a: string, b: string) {
    Compare(a, b) == Less
  }

  predicate Le(a: string, b: string) {
    Compare(a, b) != Greater
  }

  /** Swapping the operands swaps Less and Greater. */
  lemma {:induction false} CompareFlip(a: string, b: string)
    ensures Compare(a, b) == Less <==> Compare(b, a) == Greater
  {
    if a != [] && b != [] && a[0] == b[0] {
      CompareFlip(a[1..], b[1..]);
    }
  }

  lemma {:induction false} LtTrans(a: string, b: string, c: string)
    requires Lt(a, b) && Lt(b, c)
    ensures Lt(a, c)
  {
    if a != [] && b != [] && c != [] && a[0] == b[0] && b[0] == c[0] {
      LtTrans(a[1..], b[1..], c[1..]);
    }
  }

  lemma LeTotal(a: string, b: string)
    ensures Le(a, b) || Le(b, a)
  {
    CompareFlip(a, b);
  }

  lemma LeTrans(a: string, b: string, c: string)
    requires Le(a, b) && Le(b, c)
    ensures Le(a, c)
  {
    CompareFlip(a, c);
    if Lt(a, b) && Lt(b, c) {
      LtTrans(a, b, c);
    } else if Lt(c, a) {
      if a == b {
        CompareFlip(c, b);
      } else {
        CompareFlip(c, a);
        CompareFlip(b, c);
        LtTrans(c, a, b);
        CompareFlip(c, b);
      }
    }
  }

  lemma LtLeTrans(a: string, b: string, c: string)
    requires Lt(a, b) && Le(b, c)
    ensures Lt(a, c)
  {
    if b != c {
      LtTrans(a, b, c);
    }
  }

  lemma LeLtTrans(a: string, b: string, c: string)
    requires Le(a, b) && Lt(b, c)
    ensures Lt(a, c)
  {
    if a != b {
      LtTrans(a, b, c);
    }
  }

  predicate Sorted(s: seq<string>) {
    forall i, j | 0 <= i < j < |s| :: Le(s[i], s[j])
  }

  /** Insertion of one name into a sorted sequence. */
  function Insert(x: string, s: seq<string>): seq<string> {
    if s == [] then [x]
    else if Le(x, s[0]) then [x] + s
    else [s[0]] + Insert(x, s[1..])
  }

  /** `sort_unstable` on a vector of strings. The order is total on values, so the
   *  stable and the unstable sort give the same sequence. */
  function Sort(s: seq<string>): (r: seq<string>)
    ensures Sorted(r)
    ensures multiset(r) == multiset(s)
  {
    if s == [] then []
    else
      var rest := Sort(s[1..]);
      InsertSorted(s[0], rest);
      InsertPermutes(s[0], rest);
      assert s == [s[0]] + s[1..];
      Insert(s[0], rest)
  }

  lemma {:induction false} InsertPermutes(x: string, s: seq<string>)
    ensures multiset(Insert(x, s)) == multiset(s) + multiset{x}
  {
    if s != [] {
      assert s == [s[0]] + s[1..];
      if !Le(x, s[0]) {
        InsertPermutes(x, s[1..]);
      }
    }
  }

  lemma InsertMember(x: string, s: seq<string>, y: string)
    requires y in Insert(x, s)
    ensures y == x || y in s
  {
    InsertPermutes(x, s);
    assert y in multiset(Insert(x, s));
  }

  lemma {:induction false} InsertSorted(x: string, s: seq<string>)
    requires Sorted(s)
    ensures Sorted(Insert(x, s))
  {
    if s == [] {
    } else if Le(x, s[0]) {
      var r := [x] + s;
      forall i, j | 0 <= i < j < |r| ensures Le(r[i], r[j]) {
        if i == 0 && j > 1 {
          LeTrans(x, s[0], s[j - 1]);
        }
      }
    } else {
      LeTotal(x, s[0]);
      var t := Insert(x, s[1..]);
      InsertSorted(x, s[1..]);
      forall j | 0 <= j < |t| ensures Le(s[0], t[j]) {
        InsertMember(x, s[1..], t[j]);
      }
      var r := [s[0]] + t;
      forall i, j | 0 <= i < j < |r| ensures Le(r[i], r[j]) {
        if i == 0 {
          assert r[j] == t[j - 1];
        } else {
          assert r[i] == t[i - 1] && r[j] == t[j - 1];
        }
      }
    }
  }
}
