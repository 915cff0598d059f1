/** Cutting a text at a byte limit without splitting a character: `cut_at_char_boundary` of
    src/content.rs and the way a content or tool draft stores the result. */
module Utf8Cut {

  type Byte = n: nat | n < 256
  type Bytes = seq<Byte>

  /** Largest stored content or output, in bytes: `MAX_CONTENT_BYTES` and `MAX_OUTPUT_BYTES`. */
  const MAX_BYTES: nat := 262144

  // ---- UTF-8 as section 4 of RFC 3629 defines it ----

  predicate Tail(b: Byte) {
    0x80 <= b <= 0xBF
  }

  /** Bytes of the character `s` starts with; 0 when it starts with none. */
  function CharLength(s: Bytes): (n: nat)
    ensures n <= |s| && n <= 4
    ensures n > 0 ==> !Tail(s[0]) && forall i :: 0 < i < n ==> Tail(s[i])
  {
    if s == [] then 0
    else if s[0] <= 0x7F then 1
    else if |s| >= 2 && 0xC2 <= s[0] <= 0xDF && Tail(s[1]) then 2
    else if |s| >= 3 && Tail(s[2])
            && ((s[0] == 0xE0 && 0xA0 <= s[1] <= 0xBF)
                || (0xE1 <= s[0] <= 0xEC && Tail(s[1]))
                || (s[0] == 0xED && 0x80 <= s[1] <= 0x9F)
                || (0xEE <= s[0] <= 0xEF && Tail(s[1]))) then 3
    else if |s| >= 4 && Tail(s[2]) && Tail(s[3])
            && ((s[0] == 0xF0 && 0x90 <= s[1] <= 0xBF)
                || (0xF1 <= s[0] <= 0xF3 && Tail(s[1]))
                || (s[0] == 0xF4 && 0x80 <= s[1] <= 0x8F)) then 4
    else 0
  }

  predicate ValidUtf8(s: Bytes)
    decreases |s|
  {
    s == [] || (CharLength(s) > 0 && ValidUtf8(s[CharLength(s)..]))
  }

  /** `i` is the end of a whole number of characters of `s`. */
  predicate EndsCharacter(s: Bytes, i: nat)
    decreases |s|
  {
    i == 0 || (0 < CharLength(s) <= i && EndsCharacter(s[CharLength(s)..], i - CharLength(s)))
  }

  // ---- the code ----

  /** Rust's `str::is_char_boundary`. */
  predicate IsCharBoundary(s: Bytes, i: nat) {
    i == 0 || i == |s| || (i < |s| && !Tail(s[i]))
  }

  method CutAtCharBoundary(s: Bytes, max: nat) returns (end: nat)
    requires ValidUtf8(s)
    ensures end <= |s| && end <= max && EndsCharacter(s, end)
    ensures forall longer :: end < longer <= |s| && longer <= max ==> !EndsCharacter(s, longer)
    ensures |s| > max ==> max - end <= 3
    ensures end < |s| <==> |s| > max
    ensures ValidUtf8(s[..end])
  {
    if |s| <= max {
      BoundaryEnds(s, |s|);
      assert s[..|s|] == s;
      return |s|;
    }
    end := max;
    while end > 0 && !IsCharBoundary(s, end)
      invariant 0 <= end <= max
      invariant forall i :: end < i <= max ==> Tail(s[i])
    {
      end := end - 1;
    }
    forall longer | end < longer <= |s| && longer <= max ensures !EndsCharacter(s, longer) {
      BoundaryEnds(s, longer);
    }
    BoundaryEnds(s, end);
    TailsAreShort(s, end, max);
    PrefixValid(s, end);
  }

  // ---- the byte test is the decoder's notion of a boundary ----

  lemma {:induction false} BoundaryEnds(s: Bytes, i: nat)
    requires ValidUtf8(s) && i <= |s|
    ensures IsCharBoundary(s, i) <==> EndsCharacter(s, i)
    decreases |s|
  {
    if i > 0 {
      var n := CharLength(s);
      if i >= n {
        BoundaryEnds(s[n..], i - n);
        if n < |s| {
          assert CharLength(s[n..]) > 0 && s[n..][0] == s[n];
        }
        if n < i < |s| {
          assert s[n..][i - n] == s[i];
        }
      }
    }
  }

  lemma {:induction false} PrefixValid(s: Bytes, i: nat)
    requires ValidUtf8(s) && i <= |s| && EndsCharacter(s, i)
    ensures ValidUtf8(s[..i])
    decreases |s|
  {
    if i > 0 {
      var n := CharLength(s);
      PrefixValid(s[n..], i - n);
      assert s[..i][n..] == s[n..][..i - n];
      CharLengthOfPrefix(s, i);
    }
  }

  lemma CharLengthOfPrefix(s: Bytes, i: nat)
    requires 0 < CharLength(s) <= i <= |s|
    ensures CharLength(s[..i]) == CharLength(s)
  {
    assert forall k :: 0 <= k < i ==> s[..i][k] == s[k];
  }

  /** The cut is also the longest valid prefix: a valid prefix ends with a character. */
  lemma {:induction false} ValidPrefixEnds(s: Bytes, i: nat)
    requires ValidUtf8(s) && i <= |s| && ValidUtf8(s[..i])
    ensures EndsCharacter(s, i)
    decreases |s|
  {
    if i > 0 {
      var p := s[..i];
      var n := CharLength(p);
      assert forall k :: 0 <= k < i ==> p[k] == s[k];
      assert CharLength(s) == n;
      assert s[n..][..i - n] == p[n..];
      ValidPrefixEnds(s[n..], i - n);
    }
  }

  lemma NextStarts(s: Bytes)
    requires ValidUtf8(s)
    ensures CharLength(s) < |s| ==> !Tail(s[CharLength(s)])
  {
    var rest := s[CharLength(s)..];
    assert rest != [] ==> CharLength(rest) > 0 && rest[0] == s[CharLength(s)];
  }

  /** A character has at most three tail bytes. */
  lemma {:induction false} TailsAreShort(s: Bytes, end: nat, max: nat)
    requires ValidUtf8(s) && end <= max < |s| && EndsCharacter(s, end)
    requires forall i :: end < i <= max ==> Tail(s[i])
    ensures max - end <= 3
    decreases |s|
  {
    var n := CharLength(s);
    if end == 0 {
      NextStarts(s);
    } else {
      assert forall i :: end - n < i <= max - n ==> s[n..][i] == s[i + n];
      TailsAreShort(s[n..], end - n, max - n);
    }
  }

  // ---- what a draft stores ----

  datatype Stored = Stored(text: Bytes, truncated: bool, fullBytes: nat)

  /** The end of `resolve` and of `tools::run`: `redacted` is the redacted text, whatever the
      redaction rules made of the original. */
  method Store(redacted: Bytes) returns (c: Stored)
    requires ValidUtf8(redacted)
    ensures c.text <= redacted && |c.text| <= MAX_BYTES && ValidUtf8(c.text)
    ensures forall longer :: c.text < longer <= redacted && |longer| <= MAX_BYTES ==> !ValidUtf8(longer)
    ensures c.truncated <==> c.text != redacted
    ensures c.truncated <==> |redacted| > 262144
    ensures c.truncated ==> |c.text| >= MAX_BYTES - 3
    ensures c.fullBytes == |redacted|
  {
    var truncated := |redacted| > MAX_BYTES;
    var end := |redacted|;
    if truncated {
      end := CutAtCharBoundary(redacted, MAX_BYTES);
    } else {
      assert redacted[..end] == redacted;
    }
    forall longer | redacted[..end] < longer <= redacted && |longer| <= MAX_BYTES ensures !ValidUtf8(longer) {
      assert longer == redacted[..|longer|];
      if ValidUtf8(longer) {
        ValidPrefixEnds(redacted, |longer|);
      }
    }
    c := Stored(redacted[..end], truncated, |redacted|);
  }
}
