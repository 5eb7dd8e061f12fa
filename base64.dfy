/**
 * The base64 coding the session tokens rely on: `btoa` and `atob` over
 * binary strings (the alphabet of RFC 4648 section 4, with `=` padding and
 * the forgiving decoding of the HTML standard), and the base64url variant
 * of lib/session.ts that swaps `+/` for `-_` and drops the padding.
 */
module Base64 {
  import opened Common

  /** The value a base64 digit stands for. */
  type Sextet = v: int | 0 <= v < 64

  /** The digit of a value in the standard alphabet `A-Z a-z 0-9 + /`. */
  function StdChar(v: Sextet): (c: char)
    ensures c != '=' && c != '-' && c != '_' && c != '.'
    ensures c != ' ' && c != '\t' && c != '\n' && c != '\r' && c != '\U{C}'
  {
    if v < 26 then ('A' as int + v) as char
    else if v < 52 then ('a' as int + (v - 26)) as char
    else if v < 62 then ('0' as int + (v - 52)) as char
    else if v == 62 then '+'
    else '/'
  }

  /** The value of a standard digit; anything else is not a digit. */
  function StdValue(c: char): (r: Option<Sextet>)
  {
    if 'A' <= c <= 'Z' then Some(c as int - 'A' as int)
    else if 'a' <= c <= 'z' then Some(c as int - 'a' as int + 26)
    else if '0' <= c <= '9' then Some(c as int - '0' as int + 52)
    else if c == '+' then Some(62)
    else if c == '/' then Some(63)
    else None
  }

  /** Every digit reads back as the value it was written for. */
  lemma StdValueOfChar(v: Sextet)
    ensures StdValue(StdChar(v)) == Some(v)
  {
  }

  /** A character reads as a digit exactly when it is the digit of its value. */
  lemma StdCharOfValue(c: char)
    ensures StdValue(c).Some? ==> StdChar(StdValue(c).value) == c
  {
  }

  predicate IsStdDigits(s: string)
  {
    forall i :: 0 <= i < |s| ==> StdValue(s[i]).Some?
  }

  /** The values of three bytes, six bits at a time. */
  function SplitGroup(b0: Byte, b1: Byte, b2: Byte): (v: seq<Sextet>)
    ensures |v| == 4
  {
    [b0 / 4, (b0 % 4) * 16 + b1 / 16, (b1 % 16) * 4 + b2 / 64, b2 % 64]
  }

  /** How many values `n` bytes give: four per group of three, and two or three for a final one or two bytes. */
  function SextetCount(n: nat): nat
  {
    if n == 0 then 0 else if n == 1 then 2 else if n == 2 then 3 else 4 + SextetCount(n - 3)
  }

  /**
   * The values of `n` bytes and the padding `btoa` adds fill whole groups of
   * four; the count is never one more than a multiple of four, and adding
   * three tells the number of `=` that were dropped.
   */
  lemma {:induction false} SextetCountGroups(n: nat)
    ensures (SextetCount(n) + |Padding(n)|) % 4 == 0
    ensures SextetCount(n) % 4 != 1
    ensures (SextetCount(n) + 3) % 4 == (if n % 3 == 0 then 3 else if n % 3 == 1 then 1 else 2)
  {
    if n >= 3 {
      SextetCountGroups(n - 3);
      assert n % 3 == (n - 3) % 3;
    }
  }

  /** The values of a byte string; a final one or two bytes give two or three values (no padding). */
  function Sextets(b: seq<Byte>): (v: seq<Sextet>)
    ensures |v| == SextetCount(|b|)
    decreases |b|
  {
    if |b| == 0 then []
    else if |b| == 1 then [b[0] / 4, (b[0] % 4) * 16]
    else if |b| == 2 then [b[0] / 4, (b[0] % 4) * 16 + b[1] / 16, (b[1] % 16) * 4]
    else SplitGroup(b[0], b[1], b[2]) + Sextets(b[3..])
  }

  /** The digits of a run of values. */
  function Chars(v: seq<Sextet>): (s: string)
    ensures |s| == |v| && forall i :: 0 <= i < |v| ==> s[i] == StdChar(v[i])
  {
    if |v| == 0 then "" else [StdChar(v[0])] + Chars(v[1..])
  }

  /** The values of a run of digits. */
  function Values(s: string): (v: seq<Sextet>)
    requires IsStdDigits(s)
    ensures |v| == |s| && forall i :: 0 <= i < |s| ==> v[i] == StdValue(s[i]).value
  {
    if |s| == 0 then [] else [StdValue(s[0]).value] + Values(s[1..])
  }

  lemma ValuesChars(v: seq<Sextet>)
    ensures IsStdDigits(Chars(v)) && Values(Chars(v)) == v
  {
    var s := Chars(v);
    forall i | 0 <= i < |s| ensures StdValue(s[i]) == Some(v[i]) {
      StdValueOfChar(v[i]);
    }
  }

  /** The digits of a byte string without any padding. */
  function Digits(b: seq<Byte>): (s: string)
    ensures IsStdDigits(s)
  {
    ValuesChars(Sextets(b));
    Chars(Sextets(b))
  }

  /** The `=` that fill the last group to four characters. */
  function Padding(n: nat): string
  {
    if n % 3 == 1 then "==" else if n % 3 == 2 then "=" else ""
  }

  /** A binary string: one character per byte, as `String.fromCharCode` builds it. */
  function Latin1(b: seq<Byte>): (s: string)
    ensures |s| == |b| && forall i :: 0 <= i < |b| ==> s[i] as int == b[i]
  {
    if |b| == 0 then "" else [b[0] as char] + Latin1(b[1..])
  }

  predicate IsBinary(s: string)
  {
    forall i :: 0 <= i < |s| ==> s[i] as int < 256
  }

  function BytesOf(s: string): (b: seq<Byte>)
    requires IsBinary(s)
    ensures |b| == |s| && forall i :: 0 <= i < |s| ==> b[i] == s[i] as int
  {
    if |s| == 0 then [] else [s[0] as int] + BytesOf(s[1..])
  }

  /** `btoa` of a binary string: its bytes in base64, padded to a multiple of four. */
  function Btoa(binary: string): (s: string)
    requires IsBinary(binary)
    ensures |s| % 4 == 0
  {
    SextetCountGroups(|binary|);
    Digits(BytesOf(binary)) + Padding(|binary|)
  }

  /** The ASCII whitespace that forgiving base64 decoding skips. */
  predicate IsAsciiWhitespace(c: char)
  {
    c == ' ' || c == '\t' || c == '\n' || c == '\r' || c == '\U{C}'
  }

  function RemoveAsciiWhitespace(s: string): (r: string)
    ensures |r| <= |s|
    ensures forall i :: 0 <= i < |r| ==> !IsAsciiWhitespace(r[i])
  {
    if |s| == 0 then ""
    else if IsAsciiWhitespace(s[0]) then RemoveAsciiWhitespace(s[1..])
    else [s[0]] + RemoveAsciiWhitespace(s[1..])
  }

  /** One or two `=` at the end of a text whose length is a multiple of four are padding. */
  function DropPadding(s: string): (r: string)
    ensures |r| <= |s| && r == s[..|r|]
  {
    if |s| % 4 != 0 then s
    else if |s| >= 2 && s[|s| - 2..] == "==" then s[..|s| - 2]
    else if |s| >= 1 && s[|s| - 1] == '=' then s[..|s| - 1]
    else s
  }

  /** The byte made of the six bits of one value and the top two of the next. */
  function High(v0: Sextet, v1: Sextet): Byte { v0 * 4 + v1 / 16 }

  /** The byte made of the low four bits of one value and the top four of the next. */
  function Middle(v1: Sextet, v2: Sextet): Byte { (v1 % 16) * 16 + v2 / 4 }

  /** The byte made of the low two bits of one value and all six of the next. */
  function Low(v2: Sextet, v3: Sextet): Byte { (v2 % 4) * 64 + v3 }

  /**
   * The bytes of a run of values, four values to three bytes; a final two or
   * three give one or two. (A single final value carries no whole byte; `atob`
   * refuses such a text before regrouping.)
   */
  function Regroup(v: seq<Sextet>): (b: seq<Byte>)
    decreases |v|
  {
    if |v| <= 1 then []
    else if |v| == 2 then [High(v[0], v[1])]
    else if |v| == 3 then [High(v[0], v[1]), Middle(v[1], v[2])]
    else [High(v[0], v[1]), Middle(v[1], v[2]), Low(v[2], v[3])] + Regroup(v[4..])
  }

  /**
   * `atob`: skip ASCII whitespace, drop the padding, and decode; the text is
   * refused (`atob` throws) when a digit is not in the alphabet or one digit
   * is left over.
   */
  function Atob(s: string): (r: Option<string>)
    ensures r.Some? ==> IsBinary(r.value)
  {
    var t := DropPadding(RemoveAsciiWhitespace(s));
    if |t| % 4 == 1 || !IsStdDigits(t) then None else Some(Latin1(Regroup(Values(t))))
  }

  /** A byte's top six bits, followed by its low two bits and any four more, give the byte back. */
  lemma HighOf(b0: Byte, t: int)
    requires 0 <= t < 16
    ensures 0 <= (b0 % 4) * 16 + t < 64
    ensures High(b0 / 4, (b0 % 4) * 16 + t) == b0
  {
    assert ((b0 % 4) * 16 + t) / 16 == b0 % 4;
  }

  /** A byte's top four bits after two others, then its low four bits before two more, give the byte back. */
  lemma MiddleOf(b1: Byte, hi: int, u: int)
    requires 0 <= hi < 4 && 0 <= u < 4
    ensures 0 <= hi * 16 + b1 / 16 < 64 && 0 <= (b1 % 16) * 4 + u < 64
    ensures Middle(hi * 16 + b1 / 16, (b1 % 16) * 4 + u) == b1
  {
    assert (hi * 16 + b1 / 16) % 16 == b1 / 16;
    assert ((b1 % 16) * 4 + u) / 4 == b1 % 16;
  }

  /** A byte's top two bits after four others, then its low six bits, give the byte back. */
  lemma LowOf(b1: Byte, b2: Byte)
    ensures 0 <= (b1 % 16) * 4 + b2 / 64 < 64
    ensures Low((b1 % 16) * 4 + b2 / 64, b2 % 64) == b2
  {
    assert ((b1 % 16) * 4 + b2 / 64) % 4 == b2 / 64;
  }

  /** The sextets of three bytes put back together give the bytes. */
  lemma RegroupBytes(b0: Byte, b1: Byte, b2: Byte)
    ensures var v := SplitGroup(b0, b1, b2);
      High(v[0], v[1]) == b0 && Middle(v[1], v[2]) == b1 && Low(v[2], v[3]) == b2
  {
    HighOf(b0, b1 / 16);
    MiddleOf(b1, b0 % 4, b2 / 64);
    LowOf(b1, b2);
  }

  lemma RegroupGroup(b0: Byte, b1: Byte, b2: Byte, rest: seq<Sextet>)
    ensures Regroup(SplitGroup(b0, b1, b2) + rest) == [b0, b1, b2] + Regroup(rest)
  {
    var v := SplitGroup(b0, b1, b2) + rest;
    assert v[4..] == rest;
    assert v[..4] == SplitGroup(b0, b1, b2);
    RegroupBytes(b0, b1, b2);
  }

  lemma RegroupOne(b0: Byte)
    ensures Regroup([b0 / 4, (b0 % 4) * 16]) == [b0]
  {
    HighOf(b0, 0);
  }

  lemma RegroupTwo(b0: Byte, b1: Byte)
    ensures Regroup([b0 / 4, (b0 % 4) * 16 + b1 / 16, (b1 % 16) * 4]) == [b0, b1]
  {
    HighOf(b0, b1 / 16);
    MiddleOf(b1, b0 % 4, 0);
    var v: seq<Sextet> := [b0 / 4, (b0 % 4) * 16 + b1 / 16, (b1 % 16) * 4];
    assert Regroup(v) == [High(v[0], v[1]), Middle(v[1], v[2])];
  }

  /** A final one or two bytes come back from their two or three values. */
  lemma RegroupShort(b: seq<Byte>)
    requires |b| <= 2
    ensures Regroup(Sextets(b)) == b
  {
    if |b| == 1 {
      assert Sextets(b) == [b[0] / 4, (b[0] % 4) * 16];
      RegroupOne(b[0]);
    } else if |b| == 2 {
      assert Sextets(b) == [b[0] / 4, (b[0] % 4) * 16 + b[1] / 16, (b[1] % 16) * 4];
      RegroupTwo(b[0], b[1]);
    }
  }

  /** A group of three bytes in front of bytes whose values `tail` come back comes back too. */
  lemma RegroupFront(b: seq<Byte>, tail: seq<Sextet>)
    requires |b| >= 3
    requires tail == Sextets(b[3..]) && Regroup(tail) == b[3..]
    ensures Regroup(Sextets(b)) == b
  {
    var rest := b[3..];
    assert b == [b[0], b[1], b[2]] + rest;
    assert Sextets(b) == SplitGroup(b[0], b[1], b[2]) + tail;
    RegroupGroup(b[0], b[1], b[2], tail);
  }

  /** Regrouping the values of a byte string gives the bytes back. */
  lemma {:induction false} RegroupSextets(b: seq<Byte>)
    ensures Regroup(Sextets(b)) == b
    decreases |b|
  {
    if |b| >= 3 {
      RegroupSextets(b[3..]);
      RegroupFront(b, Sextets(b[3..]));
    } else {
      RegroupShort(b);
    }
  }

  lemma {:induction false} NoWhitespaceKept(s: string)
    requires forall i :: 0 <= i < |s| ==> !IsAsciiWhitespace(s[i])
    ensures RemoveAsciiWhitespace(s) == s
  {
    if |s| > 0 {
      NoWhitespaceKept(s[1..]);
    }
  }

  lemma {:induction false} Latin1BytesOf(b: seq<Byte>)
    ensures IsBinary(Latin1(b)) && BytesOf(Latin1(b)) == b
  {
  }

  lemma {:induction false} BytesOfLatin1(s: string)
    requires IsBinary(s)
    ensures Latin1(BytesOf(s)) == s
  {
  }

  /** The padded digits of a byte string hold no whitespace. */
  lemma PaddedHasNoWhitespace(b: seq<Byte>)
    ensures forall i :: 0 <= i < |Digits(b) + Padding(|b|)| ==> !IsAsciiWhitespace((Digits(b) + Padding(|b|))[i])
  {
    var d := Digits(b);
    var s := d + Padding(|b|);
    forall i | 0 <= i < |s| ensures !IsAsciiWhitespace(s[i]) {
      if i < |d| {
        assert d[i] == StdChar(Sextets(b)[i]);
      }
    }
  }

  /** The padding `btoa` adds is exactly what forgiving decoding drops. */
  lemma DropPaddingOfPadded(b: seq<Byte>)
    ensures DropPadding(Digits(b) + Padding(|b|)) == Digits(b)
  {
    var d := Digits(b);
    var s := d + Padding(|b|);
    SextetCountGroups(|b|);
    if |b| % 3 == 1 {
      assert s[|s| - 2..] == "==";
      assert s[..|s| - 2] == d;
    } else if |b| % 3 == 2 {
      assert s[|s| - 2] == d[|d| - 1] == StdChar(Sextets(b)[|d| - 1]);
      assert s[|s| - 1] == '=';
      assert s[..|s| - 1] == d;
    } else {
      assert s == d;
      assert |d| > 0 ==> d[|d| - 1] == StdChar(Sextets(b)[|d| - 1]);
    }
  }

  /** `atob` undoes `btoa`. */
  lemma AtobBtoa(binary: string)
    requires IsBinary(binary)
    ensures Atob(Btoa(binary)) == Some(binary)
  {
    var b := BytesOf(binary);
    var s := Btoa(binary);
    var t := DropPadding(RemoveAsciiWhitespace(s));
    assert t == Digits(b) by {
      PaddedHasNoWhitespace(b);
      NoWhitespaceKept(s);
      DropPaddingOfPadded(b);
    }
    assert IsStdDigits(t) && |t| % 4 != 1 by {
      SextetCountGroups(|b|);
    }
    assert Latin1(Regroup(Values(t))) == binary by {
      ValuesChars(Sextets(b));
      RegroupSextets(b);
      BytesOfLatin1(binary);
    }
  }

  /** The base64url digit of a standard digit. */
  function ToUrlChar(c: char): char
  {
    if c == '+' then '-' else if c == '/' then '_' else c
  }

  function FromUrlChar(c: char): char
  {
    if c == '-' then '+' else if c == '_' then '/' else c
  }

  /** `s.replace(/\+/g, "-").replace(/\//g, "_")`. */
  function ToUrl(s: string): (r: string)
    ensures |r| == |s| && forall i :: 0 <= i < |s| ==> r[i] == ToUrlChar(s[i])
  {
    if |s| == 0 then "" else [ToUrlChar(s[0])] + ToUrl(s[1..])
  }

  /** `s.replace(/-/g, "+").replace(/_/g, "/")`. */
  function FromUrl(s: string): (r: string)
    ensures |r| == |s| && forall i :: 0 <= i < |s| ==> r[i] == FromUrlChar(s[i])
  {
    if |s| == 0 then "" else [FromUrlChar(s[0])] + FromUrl(s[1..])
  }

  /** `s.replace(/=+$/g, "")`: every trailing `=` removed. */
  function StripTrailingEquals(s: string): (r: string)
    ensures |r| <= |s| && r == s[..|r|]
    ensures |r| == 0 || r[|r| - 1] != '='
  {
    if |s| > 0 && s[|s| - 1] == '=' then StripTrailingEquals(s[..|s| - 1]) else s
  }

  /** `"===".slice((n + 3) % 4)`: the `=` that restore a length of a multiple of four. */
  function Repad(n: nat): (r: string)
  {
    "==="[(n + 3) % 4..]
  }

  /** The alphabet of base64url output: letters, digits, `-` and `_`. */
  predicate IsUrlChar(c: char)
  {
    ('A' <= c <= 'Z') || ('a' <= c <= 'z') || ('0' <= c <= '9') || c == '-' || c == '_'
  }

  /** `base64urlEncode` as a value: the bytes' base64 digits in the URL alphabet, without padding. */
  function EncodeUrl(b: seq<Byte>): (s: string)
    ensures s == ToUrl(Digits(b))
    ensures forall i :: 0 <= i < |s| ==> IsUrlChar(s[i])
  {
    EncodeUrlDigits(b);
    var s := StripTrailingEquals(ToUrl(Btoa(Latin1(b))));
    assert forall i :: 0 <= i < |s| ==> IsUrlChar(s[i]) by {
      forall i | 0 <= i < |s| ensures IsUrlChar(s[i]) {
        assert Digits(b)[i] == StdChar(Sextets(b)[i]);
      }
    }
    s
  }

  lemma {:induction false} StripPadding(d: string, pad: string)
    requires |d| == 0 || d[|d| - 1] != '='
    requires forall i :: 0 <= i < |pad| ==> pad[i] == '='
    ensures StripTrailingEquals(d + pad) == d
    decreases |pad|
  {
    if |pad| > 0 {
      assert (d + pad)[..|d + pad| - 1] == d + pad[..|pad| - 1];
      StripPadding(d, pad[..|pad| - 1]);
    } else {
      assert d + pad == d;
    }
  }

  lemma ToUrlConcat(a: string, b: string)
    ensures ToUrl(a + b) == ToUrl(a) + ToUrl(b)
  {
  }

  /** Without padding, the URL form is the standard digits with `+/` swapped. */
  lemma EncodeUrlDigits(b: seq<Byte>)
    ensures IsBinary(Latin1(b)) && StripTrailingEquals(ToUrl(Btoa(Latin1(b)))) == ToUrl(Digits(b))
  {
    Latin1BytesOf(b);
    var d := Digits(b);
    assert Btoa(Latin1(b)) == d + Padding(|b|);
    assert |d| == 0 || d[|d| - 1] != '=' by {
      if |d| > 0 {
        assert d[|d| - 1] == StdChar(Sextets(b)[|d| - 1]);
      }
    }
    assert forall i | 0 <= i < |Padding(|b|)| :: Padding(|b|)[i] == '=';
    UrlStripsPadding(d, Padding(|b|));
  }

  lemma UrlStripsPadding(d: string, pad: string)
    requires |d| == 0 || d[|d| - 1] != '='
    requires forall i | 0 <= i < |pad| :: pad[i] == '='
    ensures StripTrailingEquals(ToUrl(d + pad)) == ToUrl(d)
  {
    var u := ToUrl(d);
    assert ToUrl(pad) == pad;
    assert ToUrl(d + pad) == u + pad by {
      ToUrlConcat(d, pad);
    }
    assert |u| == 0 || u[|u| - 1] != '=' by {
      if |u| > 0 {
        assert u[|u| - 1] == ToUrlChar(d[|d| - 1]);
      }
    }
    StripPadding(u, pad);
  }

  /**
   * `base64urlDecode` as a value: swap the alphabet back, restore the
   * padding and `atob`; nothing when `atob` would throw.
   */
  function DecodeUrl(s: string): (r: Option<seq<Byte>>)
  {
    var binary := Atob(FromUrl(s) + Repad(|s|));
    if binary.Some? then Some(BytesOf(binary.value)) else None
  }

  /** Restoring the padding of unpadded digits gives the padding `btoa` wrote. */
  lemma RepadDigits(b: seq<Byte>)
    ensures Repad(|Digits(b)|) == Padding(|b|)
  {
    SextetCountGroups(|b|);
  }

  lemma FromUrlToUrlDigits(b: seq<Byte>)
    ensures FromUrl(ToUrl(Digits(b))) == Digits(b)
  {
    var d := Digits(b);
    forall i | 0 <= i < |d| ensures FromUrl(ToUrl(d))[i] == d[i] {
      assert d[i] == StdChar(Sextets(b)[i]);
    }
  }

  /** Decoding a token part gives back the bytes that were encoded. */
  lemma DecodeEncodeUrl(b: seq<Byte>)
    ensures DecodeUrl(EncodeUrl(b)) == Some(b)
  {
    var u := EncodeUrl(b);
    Latin1BytesOf(b);
    assert FromUrl(u) + Repad(|u|) == Btoa(Latin1(b)) by {
      FromUrlToUrlDigits(b);
      RepadDigits(b);
    }
    AtobBtoa(Latin1(b));
  }

  /** A token part never contains the `.` that separates the parts. */
  lemma NoDotInEncodeUrl(b: seq<Byte>)
    ensures '.' !in EncodeUrl(b)
  {
    var s := EncodeUrl(b);
    forall i | 0 <= i < |s| ensures s[i] != '.' {
      assert IsUrlChar(s[i]);
    }
  }

  /** `base64urlEncode`: builds the binary string byte by byte, then `btoa` and the URL alphabet. */
  method Base64urlEncode(bytes: seq<Byte>) returns (s: string)
    ensures s == EncodeUrl(bytes)
  {
    var binary := "";
    var i := 0;
    while i < |bytes|
      invariant 0 <= i <= |bytes|
      invariant binary == Latin1(bytes[..i])
    {
      assert Latin1(bytes[..i + 1]) == Latin1(bytes[..i]) + [bytes[i] as char] by {
        Latin1Snoc(bytes[..i], bytes[i]);
        assert bytes[..i + 1] == bytes[..i] + [bytes[i]];
      }
      binary := binary + [bytes[i] as char];
      i := i + 1;
    }
    assert bytes[..i] == bytes;
    Latin1BytesOf(bytes);
    var b64 := Btoa(binary);
    s := StripTrailingEquals(ToUrl(b64));
  }

  lemma {:induction false} Latin1Snoc(b: seq<Byte>, x: Byte)
    ensures Latin1(b + [x]) == Latin1(b) + [x as char]
  {
    if |b| > 0 {
      assert (b + [x])[1..] == b[1..] + [x];
      Latin1Snoc(b[1..], x);
    }
  }

  /** `base64urlDecode`: `atob` of the restored text, then the bytes of the binary string one by one; `None` where `atob` throws. */
  method Base64urlDecode(input: string) returns (r: Option<seq<Byte>>)
    ensures r == DecodeUrl(input)
  {
    var b64 := FromUrl(input) + Repad(|input|);
    var binary := Atob(b64);
    if binary.None? {
      return None;
    }
    var text := binary.value;
    var bytes: seq<Byte> := [];
    var i := 0;
    while i < |text|
      invariant 0 <= i <= |text|
      invariant bytes == BytesOf(text[..i])
    {
      assert BytesOf(text[..i + 1]) == BytesOf(text[..i]) + [text[i] as int] by {
        assert text[..i + 1] == text[..i] + [text[i]];
        BytesOfSnoc(text[..i], text[i]);
      }
      bytes := bytes + [text[i] as int];
      i := i + 1;
    }
    assert text[..i] == text;
    r := Some(bytes);
  }

  lemma {:induction false} BytesOfSnoc(s: string, c: char)
    requires IsBinary(s) && c as int < 256
    ensures IsBinary(s + [c]) && BytesOf(s + [c]) == BytesOf(s) + [c as int]
  {
    if |s| > 0 {
      assert (s + [c])[1..] == s[1..] + [c];
      BytesOfSnoc(s[1..], c);
    }
  }
}
