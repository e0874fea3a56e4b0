/** The byte-wise UTF-8 check against the grammar of section 4 of RFC 3629. */
module Utf8 {
  import opened Wrappers

  predicate Tail(s: seq<Byte>, i: nat) {
    i < |s| && 0x80 <= s[i] <= 0xBF
  }

  /** The length of the UTF-8 character a text starts with, or 0 if it starts with none. */
  function CharLength(s: seq<Byte>): (k: nat)
    requires s != []
    ensures k <= |s| && k <= 4
  {
    var b := s[0];
    var second: int := if |s| > 1 then s[1] else 0;
    if b <= 0x7F then 1
    else if 0xC2 <= b <= 0xDF && Tail(s, 1) then 2
    else if 0xE0 <= b <= 0xEF && Tail(s, 1) && Tail(s, 2)
            && (b == 0xE0 ==> 0xA0 <= second) && (b == 0xED ==> second <= 0x9F) then 3
    else if 0xF0 <= b <= 0xF4 && Tail(s, 1) && Tail(s, 2) && Tail(s, 3)
            && (b == 0xF0 ==> 0x90 <= second) && (b == 0xF4 ==> second <= 0x8F) then 4
    else 0
  }

  predicate ValidUtf8(s: seq<Byte>) {
    s == [] || (CharLength(s) != 0 && ValidUtf8(s[CharLength(s)..]))
  }

  /** Decodes each code point and refuses stray bytes, truncation, overlong forms, surrogates and
      values above U+10FFFF; that accepts exactly the grammar. */
  method IsValidUtf8(s: seq<Byte>) returns (valid: bool)
    ensures valid == ValidUtf8(s)
  {
    var index := 0;
    assert s[0..] == s;
    while index < |s|
      invariant 0 <= index <= |s|
      invariant ValidUtf8(s) == ValidUtf8(s[index..])
      decreases |s| - index
    {
      var first := s[index];
      var continuations: nat, codePoint: int := 0, 0;
      if first <= 0x7F {
        assert s[index..][1..] == s[index + 1..];
        index := index + 1;
        continue;
      }
      if 0xC2 <= first <= 0xDF {
        continuations, codePoint := 1, first % 0x20;
      } else if 0xE0 <= first <= 0xEF {
        continuations, codePoint := 2, first % 0x10;
      } else if 0xF0 <= first <= 0xF4 {
        continuations, codePoint := 3, first % 0x08;
      } else {
        return false;
      }
      if index + continuations >= |s| {
        return false;
      }
      var offset := 1;
      while offset <= continuations
        invariant 1 <= offset <= continuations + 1
        invariant forall k | 1 <= k < offset :: Tail(s[index..], k)
        invariant codePoint == Decoded(s[index..], continuations, offset - 1)
      {
        var next := s[index + offset];
        if !(0x80 <= next < 0xC0) {
          assert !Tail(s[index..], offset);
          return false;
        }
        codePoint := codePoint * 0x40 + next % 0x40;
        offset := offset + 1;
      }
      assert forall k | 1 <= k <= continuations :: Tail(s[index..], k);
      var overlong := (continuations == 1 && codePoint < 0x80)
                   || (continuations == 2 && codePoint < 0x800)
                   || (continuations == 3 && codePoint < 0x10000);
      CodePointRange(s[index..], continuations);
      if overlong || codePoint > 0x10FFFF || 0xD800 <= codePoint <= 0xDFFF {
        return false;
      }
      assert s[index..][continuations + 1..] == s[index + continuations + 1..];
      index := index + continuations + 1;
    }
    return true;
  }

  /** The bits gathered from a lead byte with `count` continuations and the first `k` of them. */
  function Decoded(s: seq<Byte>, count: nat, k: nat): int
    requires 1 <= count <= 3 && k <= count < |s|
  {
    if k == 0 then (if count == 1 then s[0] % 0x20 else if count == 2 then s[0] % 0x10 else s[0] % 0x08)
    else Decoded(s, count, k - 1) * 0x40 + s[k] % 0x40
  }

  lemma CodePointRange(s: seq<Byte>, count: nat)
    requires 1 <= count <= 3 && count < |s|
    requires forall k | 1 <= k <= count :: Tail(s, k)
    requires if count == 1 then 0xC2 <= s[0] <= 0xDF else if count == 2 then 0xE0 <= s[0] <= 0xEF else 0xF0 <= s[0] <= 0xF4
    ensures var code := Decoded(s, count, count);
            var refused := (count == 1 && code < 0x80) || (count == 2 && code < 0x800) || (count == 3 && code < 0x10000)
                           || code > 0x10FFFF || 0xD800 <= code <= 0xDFFF;
            CharLength(s) == if refused then 0 else count + 1
  {
    assert Tail(s, 1) && s[1] % 0x40 == s[1] - 0x80;
    assert Decoded(s, count, 1) == Decoded(s, count, 0) * 0x40 + s[1] % 0x40;
    if count >= 2 {
      assert Tail(s, 2) && s[2] % 0x40 == s[2] - 0x80;
      assert Decoded(s, count, 2) == Decoded(s, count, 1) * 0x40 + s[2] % 0x40;
    }
    if count == 3 {
      assert Tail(s, 3) && s[3] % 0x40 == s[3] - 0x80;
      assert Decoded(s, count, 3) == Decoded(s, count, 2) * 0x40 + s[3] % 0x40;
    }
  }

  /** The byte 0xFF never occurs in UTF-8. */
  lemma {:induction false} NoByte255(s: seq<Byte>)
    requires ValidUtf8(s)
    ensures 255 !in s
  {
    if s != [] {
      var k := CharLength(s);
      NoByte255(s[k..]);
      assert s == s[..k] + s[k..];
      assert forall i | 1 <= i < k :: Tail(s, i);
    }
  }
}
