/** Names as OpenDocument style tokens: anything but an ASCII letter, digit or
    `-` escaped as its hexadecimal code between underscores. */
module StyleNames {
  import opened Engine

  const UNDERSCORE: char := '_'

  predicate Unescaped(c: char) {
    'a' <= c <= 'z' || 'A' <= c <= 'Z' || '0' <= c <= '9' || c == '-'
  }

  // ---------------------------------------------------------------- hexadecimal

  function Digit(d: nat): char
    requires d < 16
  {
    "0123456789abcdef"[d]
  }

  function DigitOf(c: char): Option<int> {
    if '0' <= c <= '9' then Some(c as int - '0' as int)
    else if 'a' <= c <= 'f' then Some(c as int - 'a' as int + 10)
    else if 'A' <= c <= 'F' then Some(c as int - 'A' as int + 10)
    else None
  }

  function Hex(n: nat): (s: string)
    ensures |s| > 0
  {
    if n < 16 then [Digit(n)] else Hex(n / 16) + [Digit(n % 16)]
  }

  /** The number hexadecimal digits make. */
  function ParseDigits(s: string): Option<int> {
    if s == "" then Some(0)
    else
      var rest, d := ParseDigits(s[..|s| - 1]), DigitOf(s[|s| - 1]);
      if rest.None? || d.None? then None else Some(rest.value * 16 + d.value)
  }

  /** As the standard library parses one: digits, after a sign or not. */
  function ParseHex(s: string): Option<int> {
    if s == "" || s == "+" then None
    else if s[0] == '+' then ParseDigits(s[1..])
    else ParseDigits(s)
  }

  /** The character of a code, if it is one. */
  predicate IsScalar(n: int) {
    0 <= n < 0xD800 || 0xE000 <= n < 0x11_0000
  }

  // ---------------------------------------------------------------- encoding

  function Padded(n: nat): string {
    if n < 16 then ['0'] + Hex(n) else Hex(n)
  }

  function Escape(c: char): string {
    [UNDERSCORE] + (if c as int < 0x100 then Padded(c as int) else Hex(c as int)) + [UNDERSCORE]
  }

  function EncodeChar(c: char): (s: string) {
    if Unescaped(c) then [c] else Escape(c)
  }

  function EncodeChars(name: string): string {
    if name == "" then "" else EncodeChars(name[..|name| - 1]) + EncodeChar(name[|name| - 1])
  }

  lemma {:induction false} HexDigits(n: nat)
    ensures forall c :: c in Hex(n) ==> c in "0123456789abcdef"
  {
    if n >= 16 {
      HexDigits(n / 16);
    }
  }

  /** A letter, digit or `-` stands for itself; anything else is two hexadecimal
      digits or more, of `0` to `f`, between underscores. */
  lemma CharEncoded(c: char)
    ensures var s := EncodeChar(c);
            if 'a' <= c <= 'z' || 'A' <= c <= 'Z' || '0' <= c <= '9' || c == '-' then s == [c]
            else |s| >= 4 && s[0] == '_' && s[|s| - 1] == '_' && forall k :: 0 < k < |s| - 1 ==> s[k] in "0123456789abcdef"
  {
    HexDigits(c as int);
    if c as int >= 16 {
      assert |Hex(c as int)| >= 2;
    }
  }

  function Encode(name: string): string {
    if EncodeChars(name) == "" then "Default" else EncodeChars(name)
  }

  method EncodeName(name: string) returns (out: string)
    ensures out == Encode(name)
  {
    out := "";
    var i := 0;
    while i < |name|
      invariant 0 <= i <= |name| && out == EncodeChars(name[..i])
    {
      var c := name[i];
      if Unescaped(c) {
        out := out + [c];
      } else {
        out := out + Escape(c);
      }
      assert name[..i + 1][..i] == name[..i];
      i := i + 1;
    }
    assert name[..i] == name;
    if out == "" {
      out := "Default";
    }
  }

  // ---------------------------------------------------------------- decoding

  /** The first underscore from `from` on; `|s|` if there is none. */
  function NextUnderscore(s: string, from: nat): (j: nat)
    requires from <= |s|
    ensures from <= j <= |s|
    ensures j < |s| ==> s[j] == UNDERSCORE
    ensures forall k :: from <= k < j ==> s[k] != UNDERSCORE
    decreases |s| - from
  {
    if from == |s| || s[from] == UNDERSCORE then from else NextUnderscore(s, from + 1)
  }

  /** The character escaped at `i`, and where the escape ends, if one is. */
  function EscapeAt(s: string, i: nat): (r: (bool, char, nat))
    requires i < |s|
    ensures r.0 ==> i < r.2 <= |s|
  {
    if s[i] != UNDERSCORE then (false, ' ', 0)
    else
      var end := NextUnderscore(s, i + 1);
      if end == |s| then (false, ' ', 0)
      else
        var hex := s[i + 1..end];
        var n := ParseHex(hex);
        if hex != "" && |hex| <= 6 && n.Some? && IsScalar(n.value) then (true, n.value as char, end + 1) else (false, ' ', 0)
  }

  function DecodeFrom(s: string, i: nat): string
    requires i <= |s|
    decreases |s| - i
  {
    if i == |s| then ""
    else
      var (found, c, next) := EscapeAt(s, i);
      if found then [c] + DecodeFrom(s, next) else [s[i]] + DecodeFrom(s, i + 1)
  }

  method DecodeName(token: string) returns (out: string)
    ensures out == DecodeFrom(token, 0)
  {
    out := "";
    var i := 0;
    while i < |token|
      invariant 0 <= i <= |token| && out + DecodeFrom(token, i) == DecodeFrom(token, 0)
      decreases |token| - i
    {
      ghost var rest := DecodeFrom(token, i);
      var (found, c, next) := EscapeAt(token, i);
      if found {
        assert out + ([c] + DecodeFrom(token, next)) == out + [c] + DecodeFrom(token, next);
        out := out + [c];
        i := next;
      } else {
        assert out + ([token[i]] + DecodeFrom(token, i + 1)) == out + [token[i]] + DecodeFrom(token, i + 1);
        out := out + [token[i]];
        i := i + 1;
      }
    }
    assert out + "" == out;
  }

  // ---------------------------------------------------------------- there and back

  lemma DigitComesBack(d: nat)
    requires d < 16
    ensures DigitOf(Digit(d)) == Some(d) && Digit(d) != UNDERSCORE && Digit(d) != '+'
  {
  }

  lemma {:induction false} HexComesBack(n: nat)
    ensures ParseDigits(Hex(n)) == Some(n)
    ensures forall k :: 0 <= k < |Hex(n)| ==> Hex(n)[k] != UNDERSCORE && Hex(n)[k] != '+'
  {
    if n < 16 {
      DigitComesBack(n);
      assert [Digit(n)][..0] == "";
    } else {
      HexComesBack(n / 16);
      DigitComesBack(n % 16);
      assert Hex(n)[..|Hex(n)| - 1] == Hex(n / 16);
    }
  }

  lemma {:induction false} ParseJoin(a: string, b: string)
    requires ParseDigits(a) == Some(0)
    ensures ParseDigits(a + b) == ParseDigits(b)
  {
    if b == "" {
      assert a + b == a;
    } else {
      ParseJoin(a, b[..|b| - 1]);
      assert (a + b)[..|a + b| - 1] == a + b[..|b| - 1];
    }
  }

  function Power(k: nat): nat {
    if k == 0 then 1 else 16 * Power(k - 1)
  }

  lemma {:induction false} HexLength(n: nat, k: nat)
    requires k > 0 && n < Power(k)
    ensures |Hex(n)| <= k
  {
    if n >= 16 {
      assert Power(1) == 16 * Power(0);
      HexLength(n / 16, k - 1);
    }
  }

  ghost predicate Bare(hex: string) {
    forall k :: 0 <= k < |hex| ==> hex[k] != UNDERSCORE
  }

  /** The hexadecimal code of any character parses back, padded or not, and
      has no underscore and at most six digits. */
  lemma CodeComesBack(n: nat)
    requires n < 0x11_0000
    ensures var hex := if n < 0x100 then Padded(n) else Hex(n);
            ParseHex(hex) == Some(n) && 0 < |hex| <= 6 && Bare(hex)
  {
    hide Hex, ParseDigits, Digit;
    HexComesBack(n);
    HexShort(n);
    if n < 16 {
      OneDigit(n);
    } else {
      assert Hex(n)[0] != '+';
    }
  }

  lemma HexShort(n: nat)
    requires n < 0x11_0000
    ensures |Hex(n)| <= 6
  {
    assert Power(6) == 16 * 16 * 16 * 16 * 16 * 16 * Power(0);
    HexLength(n, 6);
  }

  lemma OneDigit(n: nat)
    requires n < 16
    ensures ParseDigits(['0'] + Hex(n)) == Some(n) && |Hex(n)| == 1
  {
    HexComesBack(n);
    assert ['0'][..0] == "";
    assert ParseDigits(['0']) == Some(0);
    ParseJoin(['0'], Hex(n));
  }

  lemma NextIs(s: string, from: nat, j: nat)
    requires from <= j < |s| && s[j] == UNDERSCORE && forall k :: from <= k < j ==> s[k] != UNDERSCORE
    ensures NextUnderscore(s, from) == j
  {
  }

  /** A code between underscores, read where it stands. */
  lemma EscapeDecodes(s: string, i: nat, hex: string, c: char)
    requires i + |hex| + 2 <= |s| && s[i] == UNDERSCORE && s[i + 1 + |hex|] == UNDERSCORE && s[i + 1..i + 1 + |hex|] == hex
    requires ParseHex(hex) == Some(c as int) && 0 < |hex| <= 6 && Bare(hex)
    ensures EscapeAt(s, i) == (true, c, i + |hex| + 2)
  {
    hide ParseHex;
    var end := i + 1 + |hex|;
    forall k | i + 1 <= k < end
      ensures s[k] != UNDERSCORE
    {
      assert s[k] == s[i + 1..end][k - i - 1];
    }
    NextIs(s, i + 1, end);
  }

  lemma EscapeWithin(a: string, hex: string, c: char, b: string)
    requires ParseHex(hex) == Some(c as int) && 0 < |hex| <= 6 && Bare(hex)
    ensures EscapeAt(a + ([UNDERSCORE] + hex + [UNDERSCORE]) + b, |a|) == (true, c, |a| + |hex| + 2)
  {
    hide ParseHex, EscapeAt;
    var s := a + ([UNDERSCORE] + hex + [UNDERSCORE]) + b;
    assert s[|a| + 1..|a| + 1 + |hex|] == hex;
    EscapeDecodes(s, |a|, hex, c);
  }

  /** `code` is the escape of `c`, by digits `hex`. */
  ghost predicate Escapes(code: string, hex: string, c: char) {
    code == [UNDERSCORE] + hex + [UNDERSCORE] && ParseHex(hex) == Some(c as int) && 0 < |hex| <= 6 && Bare(hex)
  }

  lemma EscapeIs(c: char) returns (hex: string)
    requires !Unescaped(c)
    ensures Escapes(EncodeChar(c), hex, c)
  {
    hide ParseHex, Hex, Padded;
    var n := c as int;
    CodeComesBack(n);
    hex := if n < 0x100 then Padded(n) else Hex(n);
  }

  lemma PlainStep(s: string, i: nat)
    requires i < |s| && s[i] != UNDERSCORE
    ensures DecodeFrom(s, i) == [s[i]] + DecodeFrom(s, i + 1)
  {
    NoEscape(s, i);
  }

  lemma EscapeStep(s: string, i: nat, c: char, next: nat)
    requires i < |s| && i < next <= |s| && EscapeAt(s, i) == (true, c, next)
    ensures DecodeFrom(s, i) == [c] + DecodeFrom(s, next)
  {
    hide EscapeAt;
  }

  lemma KeptDecodes(a: string, c: char, b: string)
    requires Unescaped(c)
    ensures var s := a + EncodeChar(c) + b; DecodeFrom(s, |a|) == [c] + DecodeFrom(s, |a| + |EncodeChar(c)|)
  {
    hide *;
    KeptIs(c);
    KeptWithin(a, c, b);
    PlainStep(a + [c] + b, |a|);
  }

  lemma EscapeDecodesTo(a: string, code: string, hex: string, c: char, b: string)
    requires Escapes(code, hex, c)
    ensures var s := a + code + b; DecodeFrom(s, |a|) == [c] + DecodeFrom(s, |a| + |code|)
  {
    hide ParseHex, DecodeFrom, EscapeAt, Bare;
    EscapeWithin(a, hex, c, b);
    EscapeStep(a + code + b, |a|, c, |a| + |hex| + 2);
  }

  /** A character's code read where it was written. */
  lemma CharDecodes(a: string, c: char, b: string)
    ensures var s := a + EncodeChar(c) + b;
            DecodeFrom(s, |a|) == [c] + DecodeFrom(s, |a| + |EncodeChar(c)|)
  {
    hide *;
    if Unescaped(c) {
      KeptDecodes(a, c, b);
    } else {
      var hex := EscapeIs(c);
      EscapeDecodesTo(a, EncodeChar(c), hex, c, b);
    }
  }

  lemma KeptWithin(a: string, c: char, b: string)
    ensures (a + [c] + b)[|a|] == c
  {
  }

  lemma KeptIs(c: char)
    requires Unescaped(c)
    ensures EncodeChar(c) == [c] && c != UNDERSCORE
  {
  }

  lemma NoEscape(s: string, i: nat)
    requires i < |s| && s[i] != UNDERSCORE
    ensures !EscapeAt(s, i).0
  {
  }

  /** The code of the `k`-th character stands after those before it. */
  lemma {:induction false} CodesAre(name: string, k: nat) returns (rest: string)
    requires k < |name|
    ensures EncodeChars(name) == EncodeChars(name[..k]) + EncodeChar(name[k]) + rest
    decreases |name|
  {
    hide EncodeChar;
    var n := |name| - 1;
    if k < n {
      var more := CodesAre(name[..n], k);
      assert name[..n][..k] == name[..k];
      rest := more + EncodeChar(name[n]);
    } else {
      assert name[..n] == name[..k];
      rest := "";
    }
  }

  lemma {:induction false} DecodesFrom(name: string, k: nat)
    requires k <= |name| && |EncodeChars(name[..k])| <= |EncodeChars(name)|
    ensures DecodeFrom(EncodeChars(name), |EncodeChars(name[..k])|) == name[k..]
    decreases |name| - k
  {
    hide EncodeChar, EscapeAt;
    if k == |name| {
      assert name[..k] == name;
    } else {
      var rest := CodesAre(name, k);
      CharDecodes(EncodeChars(name[..k]), name[k], rest);
      assert name[..k + 1][..k] == name[..k];
      DecodesFrom(name, k + 1);
      assert name[k..] == [name[k]] + name[k + 1..];
    }
  }

  lemma EncodesLonger(name: string)
    requires name != ""
    ensures EncodeChars(name) != ""
  {
  }

  /** A name comes back from its token exactly when it is not empty: the empty
      name's token reads `Default`. */
  lemma NameComesBack(name: string)
    ensures DecodeFrom(Encode(name), 0) == name <==> name != ""
  {
    if name == "" {
      assert Encode("") == "Default";
      assert DecodeFrom("Default", 0) != "";
    } else {
      EncodesLonger(name);
      assert name[..0] == "" && name[0..] == name;
      DecodesFrom(name, 0);
    }
  }

  /** So tokens tell names apart. */
  lemma TokensDiffer(a: string, b: string)
    requires a != "" && b != "" && Encode(a) == Encode(b)
    ensures a == b
  {
    NameComesBack(a);
    NameComesBack(b);
  }

  /** In a token every underscore opens or closes an escape: there are two for
      each character escaped. */
  function Underscores(s: string): nat {
    if s == "" then 0 else Underscores(s[..|s| - 1]) + if s[|s| - 1] == UNDERSCORE then 1 else 0
  }

  function Escaped(name: string): nat {
    if name == "" then 0 else Escaped(name[..|name| - 1]) + if Unescaped(name[|name| - 1]) then 0 else 1
  }

  lemma {:induction false} UnderscoresJoin(a: string, b: string)
    ensures Underscores(a + b) == Underscores(a) + Underscores(b)
  {
    if b == "" {
      assert a + b == a;
    } else {
      UnderscoresJoin(a, b[..|b| - 1]);
      assert (a + b)[..|a + b| - 1] == a + b[..|b| - 1];
    }
  }

  lemma {:induction false} NoUnderscores(s: string)
    requires forall k :: 0 <= k < |s| ==> s[k] != UNDERSCORE
    ensures Underscores(s) == 0
  {
    if s != "" {
      NoUnderscores(s[..|s| - 1]);
    }
  }

  lemma CharUnderscores(c: char)
    ensures Underscores(EncodeChar(c)) == if Unescaped(c) then 0 else 2
  {
    if Unescaped(c) {
      NoUnderscores([c]);
    } else {
      var n := c as int;
      CodeComesBack(n);
      var hex := if n < 0x100 then Padded(n) else Hex(n);
      NoUnderscores(hex);
      var one := [UNDERSCORE];
      assert one[..0] == "";
      assert Underscores(one) == 1;
      UnderscoresJoin(one, hex);
      UnderscoresJoin(one + hex, one);
    }
  }

  lemma {:induction false} OnlyDelimiters(name: string)
    ensures Underscores(EncodeChars(name)) == 2 * Escaped(name)
  {
    if name != "" {
      var n := |name| - 1;
      OnlyDelimiters(name[..n]);
      UnderscoresJoin(EncodeChars(name[..n]), EncodeChar(name[n]));
      CharUnderscores(name[n]);
    }
  }
}
