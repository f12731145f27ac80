/** What is trimmed from a text: the characters Unicode calls white space, as UTF-8 stores them. */
module WhiteSpace {
  import opened Bytes
  import Conversions

  /** A code point of the basic plane. */
  type CodePoint = c: nat | c < 0x1_0000

  /** Those with the property White_Space. */
  predicate White(code: CodePoint) {
    || 9 <= code <= 13 || code == 0x20 || code == 0x85 || code == 0xA0 || code == 0x1680 || 0x2000 <= code <= 0x200A
    || code == 0x2028 || code == 0x2029 || code == 0x202F || code == 0x205F || code == 0x3000
  }

  /** Its bytes in UTF-8 (section 3 of RFC 3629). */
  function Utf8(code: CodePoint): (s: seq<byte>)
    ensures s != []
  {
    if code < 0x80 then [code]
    else if code < 0x800 then [0xC0 + code / 64, 0x80 + code % 64]
    else [0xE0 + code / 4096, 0x80 + code / 64 % 64, 0x80 + code % 64]
  }

  /** `s` begins with a white character. */
  ghost predicate Begins(s: seq<byte>, code: CodePoint) {
    White(code) && Utf8(code) <= s
  }

  ghost predicate Ends(s: seq<byte>, code: CodePoint) {
    White(code) && |Utf8(code)| <= |s| && s[|s| - |Utf8(code)|..] == Utf8(code)
  }

  /** Nothing but white characters. */
  ghost predicate Blank(s: seq<byte>)
    decreases |s|
  {
    s == [] || exists code: CodePoint :: Begins(s, code) && Blank(s[|Utf8(code)|..])
  }

  /** The white character that two or three bytes store. */
  lemma {:induction false} TwoBytes(a: byte, b: byte, code: CodePoint)
    ensures White(code) && Utf8(code) == [a, b] ==> Conversions.IsWhite2(a, b)
    ensures Conversions.IsWhite2(a, b) ==> White(b) && Utf8(b) == [a, b]
  {
  }

  lemma {:induction false} ThreeBytes(a: byte, b: byte, c: byte, code: CodePoint)
    ensures White(code) && Utf8(code) == [a, b, c] ==> Conversions.IsWhite3(a, b, c)
  {
    if White(code) && Utf8(code) == [a, b, c] {
      assert code >= 0x800;
      assert a == 0xE0 + code / 4096 && b == 0x80 + code / 64 % 64 && c == 0x80 + code % 64;
    }
  }

  lemma {:induction false} ThreeBytesBack(a: byte, b: byte, c: byte) returns (code: CodePoint)
    requires Conversions.IsWhite3(a, b, c)
    ensures White(code) && Utf8(code) == [a, b, c]
  {
    code := (a - 0xE0) * 4096 + (b - 0x80) * 64 + (c - 0x80);
  }

  /** Bytes taken from the front are those of a white character. */
  lemma {:induction false} FrontFound(s: seq<byte>) returns (code: CodePoint)
    requires Conversions.WhiteFront(s) > 0
    ensures Begins(s, code) && |Utf8(code)| == Conversions.WhiteFront(s)
  {
    hide Conversions.IsWhite2, Conversions.IsWhite3;
    var n := Conversions.WhiteFront(s);
    if n == 1 { code := s[0]; }
    else if n == 2 { TwoBytes(s[0], s[1], 0); code := s[1]; }
    else { code := ThreeBytesBack(s[0], s[1], s[2]); }
  }

  /** And a white character at the front is taken. */
  lemma {:induction false} BeginsInBytes(s: seq<byte>, code: CodePoint)
    requires Begins(s, code)
    ensures Conversions.WhiteFront(s) == |Utf8(code)|
  {
    hide Conversions.IsWhite2, Conversions.IsWhite3;
    var u := Utf8(code);
    assert forall k :: 0 <= k < |u| ==> s[k] == u[k];
    if |u| == 2 { TwoBytes(s[0], s[1], code); }
    if |u| == 3 { ThreeBytes(s[0], s[1], s[2], code); NoTwoBytes(code); }
  }

  /** No white character of three bytes begins or ends like one of two. */
  lemma {:induction false} NoTwoBytes(code: CodePoint)
    requires White(code) && code >= 0x800
    ensures !Conversions.IsWhite2(Utf8(code)[0], Utf8(code)[1]) && !Conversions.IsWhite2(Utf8(code)[1], Utf8(code)[2])
  {
  }

  lemma {:induction false} BackFound(s: seq<byte>) returns (code: CodePoint)
    requires Conversions.WhiteBack(s) > 0
    ensures Ends(s, code) && |Utf8(code)| == Conversions.WhiteBack(s)
  {
    hide Conversions.IsWhite2, Conversions.IsWhite3;
    var n, k := Conversions.WhiteBack(s), |s|;
    if n == 1 { code := s[k - 1]; }
    else if n == 2 { TwoBytes(s[k - 2], s[k - 1], 0); code := s[k - 1]; assert s[k - 2..] == [s[k - 2], s[k - 1]]; }
    else { code := ThreeBytesBack(s[k - 3], s[k - 2], s[k - 1]); assert s[k - 3..] == [s[k - 3], s[k - 2], s[k - 1]]; }
  }

  lemma {:induction false} EndsInBytes(s: seq<byte>, code: CodePoint)
    requires Ends(s, code)
    ensures Conversions.WhiteBack(s) == |Utf8(code)|
  {
    hide Conversions.IsWhite2, Conversions.IsWhite3;
    var u, k := Utf8(code), |s|;
    assert s[k - 1] == s[k - |u|..][|u| - 1];
    if |u| > 1 { assert s[k - 2] == s[k - |u|..][|u| - 2]; }
    if |u| > 2 { assert s[k - 3] == s[k - |u|..][0]; }
    if |u| == 2 { TwoBytes(s[k - 2], s[k - 1], code); }
    if |u| == 3 { ThreeBytes(s[k - 3], s[k - 2], s[k - 1], code); NoTwoBytes(code); }
  }

  lemma {:induction false} BlankThenWhite(s: seq<byte>, code: CodePoint)
    requires Blank(s) && White(code)
    ensures Blank(s + Utf8(code))
    decreases |s|
  {
    hide White, Utf8;
    var t := s + Utf8(code);
    if s == [] {
      assert t == Utf8(code) && t[|Utf8(code)|..] == [];
      assert Begins(t, code);
    } else {
      var first: CodePoint :| Begins(s, first) && Blank(s[|Utf8(first)|..]);
      BlankThenWhite(s[|Utf8(first)|..], code);
      assert t[|Utf8(first)|..] == s[|Utf8(first)|..] + Utf8(code);
      assert Begins(t, first);
    }
  }

  lemma {:induction false} FrontTaken(s: seq<byte>, code: CodePoint, c: nat)
    requires Begins(s, code) && c + |Utf8(code)| <= |s| && Blank(s[|Utf8(code)|..][..c])
    ensures Blank(s[..c + |Utf8(code)|])
  {
    hide White, Utf8;
    var n, front := |Utf8(code)|, s[..c + |Utf8(code)|];
    assert front[n..] == s[n..][..c];
    assert Begins(front, code);
  }

  lemma {:induction false} BackTaken(s: seq<byte>, code: CodePoint, b: nat)
    requires Ends(s, code) && b <= |s| - |Utf8(code)| && Blank(s[..|s| - |Utf8(code)|][b..])
    ensures Blank(s[b..])
  {
    hide White, Utf8, Blank;
    var before := s[..|s| - |Utf8(code)|];
    BlankThenWhite(before[b..], code);
    assert s[b..] == before[b..] + Utf8(code);
  }

  lemma {:induction false} NothingTaken(s: seq<byte>, code: CodePoint)
    requires Conversions.WhiteFront(s) == 0 && Conversions.WhiteBack(s) == 0
    ensures !Begins(s, code) && !Ends(s, code)
  {
    hide Begins, Ends, White, Conversions.WhiteFront, Conversions.WhiteBack;
    if Begins(s, code) { BeginsInBytes(s, code); }
    if Ends(s, code) { EndsInBytes(s, code); }
  }

  /** Trimming takes white characters off both ends, and all of them. */
  lemma {:induction false} TrimTakesWhite(s: seq<byte>) returns (a: nat, b: nat)
    ensures a <= b <= |s| && Conversions.Trim(s) == s[a..b] && Blank(s[..a]) && Blank(s[b..])
    ensures forall code: CodePoint :: !Begins(Conversions.Trim(s), code) && !Ends(Conversions.Trim(s), code)
    decreases |s|
  {
    hide Conversions.WhiteFront, Conversions.WhiteBack, White, Utf8, Begins, Ends, Blank;
    var n, m := Conversions.WhiteFront(s), Conversions.WhiteBack(s);
    if n > 0 {
      var code := FrontFound(s);
      var c, d := TrimTakesWhite(s[n..]);
      a, b := c + n, d + n;
      FrontTaken(s, code, c);
      assert s[n..][c..d] == s[a..b] && s[n..][d..] == s[b..];
    } else if m > 0 {
      var code := BackFound(s);
      a, b := TrimTakesWhite(s[..|s| - m]);
      BackTaken(s, code, b);
      assert s[..|s| - m][a..b] == s[a..b] && s[..|s| - m][..a] == s[..a];
    } else {
      a, b := 0, |s|;
      NothingBlank();
      assert s[0..|s|] == s && s[..0] == [] && s[|s|..] == [];
      forall code: CodePoint ensures !Begins(s, code) && !Ends(s, code) {
        NothingTaken(s, code);
      }
    }
  }

  lemma {:induction false} NothingBlank()
    ensures Blank([])
  {
  }
}
