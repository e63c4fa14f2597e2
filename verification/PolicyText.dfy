/**
 Identifiers, hashes and keys in policy documents: the text normalisation of policy_service.py and
 policy_engine.py, on ASCII text.
 */
module PolicyText {
  import opened Wrappers

  predicate IsSpace(c: char) {
    c == ' ' || '\t' <= c <= '\r' || '\U{001C}' <= c <= '\U{001F}'
  }

  function StripLeft(s: string): string {
    if s != "" && IsSpace(s[0]) then StripLeft(s[1..]) else s
  }

  function StripRight(s: string): string {
    if s != "" && IsSpace(s[|s| - 1]) then StripRight(s[..|s| - 1]) else s
  }

  function Strip(s: string): string {
    StripRight(StripLeft(s))
  }

  function LowerChar(c: char): char {
    if 'A' <= c <= 'Z' then c - 'A' + 'a' else c
  }

  function UpperChar(c: char): char {
    if 'a' <= c <= 'z' then c - 'a' + 'A' else c
  }

  function Lower(s: string): (r: string)
    ensures |r| == |s|
  {
    if s == "" then "" else [LowerChar(s[0])] + Lower(s[1..])
  }

  function Upper(s: string): (r: string)
    ensures |r| == |s|
  {
    if s == "" then "" else [UpperChar(s[0])] + Upper(s[1..])
  }

  // ---------------------------------------------------------------- identifiers

  predicate IdChar(c: char) {
    'a' <= c <= 'z' || '0' <= c <= '9'
  }

  /** Every run of other characters becomes one underscore; `inRun` says that it already has. */
  function Collapse(s: string, inRun: bool): string {
    if s == "" then ""
    else if IdChar(s[0]) then [s[0]] + Collapse(s[1..], false)
    else if inRun then Collapse(s[1..], true)
    else "_" + Collapse(s[1..], true)
  }

  function TrimLeft(s: string): string {
    if s != "" && s[0] == '_' then TrimLeft(s[1..]) else s
  }

  function TrimRight(s: string): string {
    if s != "" && s[|s| - 1] == '_' then TrimRight(s[..|s| - 1]) else s
  }

  function Slug(s: string): string {
    TrimRight(TrimLeft(Collapse(Lower(Strip(s)), false)))
  }

  /** `_identifier` for a text: None stands for its error. */
  function Identifier(s: string): Option<string> {
    if Strip(s) == "" then None
    else
      var slug := Slug(s);
      if slug == "" || |slug| > 128 then None else Some(slug)
  }

  /** Identifier characters, with single underscores between them. */
  predicate Slugged(s: string) {
    s == "" || (if IdChar(s[0]) then Slugged(s[1..]) else s[0] == '_' && (|s| > 1 ==> IdChar(s[1])) && Slugged(s[1..]))
  }

  /** What an identifier looks like. */
  predicate IsIdentifier(s: string) {
    s != "" && Slugged(s) && IdChar(s[0]) && IdChar(s[|s| - 1])
  }

  lemma {:induction false} CollapseSlugs(s: string, inRun: bool)
    ensures Slugged(Collapse(s, inRun))
    ensures inRun && Collapse(s, inRun) != "" ==> IdChar(Collapse(s, inRun)[0])
  {
    if s != "" {
      CollapseSlugs(s[1..], !IdChar(s[0]));
      var rest := Collapse(s[1..], !IdChar(s[0]));
      assert ([s[0]] + rest)[1..] == rest && ("_" + rest)[1..] == rest;
    }
  }

  lemma {:induction false} TrimLeftSlugs(s: string)
    requires Slugged(s)
    ensures Slugged(TrimLeft(s)) && (TrimLeft(s) != "" ==> IdChar(TrimLeft(s)[0]))
  {
    if s != "" && s[0] == '_' {
      TrimLeftSlugs(s[1..]);
    }
  }

  lemma {:induction false} PrefixSlugs(s: string, n: nat)
    requires Slugged(s) && n <= |s|
    ensures Slugged(s[..n])
  {
    if n > 0 {
      PrefixSlugs(s[1..], n - 1);
      assert s[..n][1..] == s[1..][..n - 1];
    }
  }

  lemma {:induction false} SluggedAt(s: string, i: nat)
    requires Slugged(s) && i < |s|
    ensures IdChar(s[i]) || s[i] == '_'
  {
    if i > 0 {
      SluggedAt(s[1..], i - 1);
    }
  }

  lemma {:induction false} TrimRightSlugs(s: string)
    requires Slugged(s) && (s != "" ==> IdChar(s[0]))
    ensures TrimRight(s) != "" ==> IsIdentifier(TrimRight(s))
    decreases |s|
  {
    if s != "" {
      SluggedAt(s, |s| - 1);
      if s[|s| - 1] == '_' {
        PrefixSlugs(s, |s| - 1);
        TrimRightSlugs(s[..|s| - 1]);
      }
    }
  }

  /** Whatever it was made from, an identifier has the shape of one. */
  lemma IdentifierShape(s: string)
    ensures Identifier(s).Some? ==> IsIdentifier(Identifier(s).value) && |Identifier(s).value| <= 128
  {
    CollapseSlugs(Lower(Strip(s)), false);
    TrimLeftSlugs(Collapse(Lower(Strip(s)), false));
    TrimRightSlugs(TrimLeft(Collapse(Lower(Strip(s)), false)));
  }

  lemma {:induction false} SluggedIsLower(s: string)
    requires Slugged(s)
    ensures Lower(s) == s
  {
    if s != "" {
      SluggedIsLower(s[1..]);
    }
  }

  lemma {:induction false} SluggedCollapses(s: string, inRun: bool)
    requires Slugged(s) && (inRun && s != "" ==> IdChar(s[0]))
    ensures Collapse(s, inRun) == s
  {
    if s != "" {
      SluggedCollapses(s[1..], !IdChar(s[0]));
    }
  }

  /** Normalising an identifier again changes nothing. */
  lemma IdentifierIsStable(s: string)
    requires Identifier(s).Some?
    ensures Identifier(Identifier(s).value) == Identifier(s)
  {
    var id := Identifier(s).value;
    IdentifierShape(s);
    SluggedIsLower(id);
    SluggedCollapses(id, false);
    assert Strip(id) == id;
  }

  /** Every text of the shape is its own identifier, up to 128 characters. */
  lemma ShapeIsIdentifier(s: string)
    requires IsIdentifier(s)
    ensures Identifier(s) == if |s| <= 128 then Some(s) else None
  {
    SluggedIsLower(s);
    SluggedCollapses(s, false);
    assert Strip(s) == s;
  }

  // ---------------------------------------------------------------- hexadecimal

  predicate IsHex(c: char) {
    '0' <= c <= '9' || 'a' <= c <= 'f' || 'A' <= c <= 'F'
  }

  predicate AllHex(s: string) {
    s == "" || (IsHex(s[0]) && AllHex(s[1..]))
  }

  function HexValue(c: char): int
    requires IsHex(c)
  {
    if '0' <= c <= '9' then (c - '0') as int
    else if 'a' <= c <= 'f' then (c - 'a') as int + 10
    else (c - 'A') as int + 10
  }

  function HexDigit(n: int): (c: char)
    requires 0 <= n < 16
    ensures IsHex(c) && HexValue(c) == n && UpperChar(c) == c && !IsSpace(c)
  {
    if n < 10 then '0' + n as char else 'A' + (n - 10) as char
  }

  /** Does it start with 0x or 0X? */
  predicate HasPrefix(s: string) {
    |s| >= 2 && s[0] == '0' && (s[1] == 'x' || s[1] == 'X')
  }

  function Unprefixed(s: string): string {
    if HasPrefix(s) then s[2..] else s
  }

  /** `_extract_channel_secret_literal`: 16 or 32 bytes of hexadecimal text. */
  function Secret(text: string): Option<string> {
    var h := Unprefixed(Strip(text));
    if (|h| == 32 || |h| == 64) && AllHex(h) then Some(h) else None
  }

  /** int(s, base) after sign and prefix: digits with single underscores between them. */
  function Digits(s: string, base: int, value: int, afterDigit: bool): Option<int> {
    if s == "" then (if afterDigit then Some(value) else None)
    else if s[0] == '_' then (if afterDigit then Digits(s[1..], base, value, false) else None)
    else if IsHex(s[0]) && HexValue(s[0]) < base then Digits(s[1..], base, value * base + HexValue(s[0]), true)
    else None
  }

  function HexInt(s: string): Option<int> {
    if s != "" && s[0] == '-' then
      var m := Magnitude(s[1..]);
      if m.None? then None else Some(-m.value)
    else if s != "" && s[0] == '+' then Magnitude(s[1..])
    else Magnitude(s)
  }

  function Magnitude(s: string): Option<int> {
    if HasPrefix(s) then (if |s| == 2 then None else Digits(s[2..], 16, 0, true)) else Digits(s, 16, 0, false)
  }

  predicate AllDigits(s: string) {
    s == "" || ('0' <= s[0] <= '9' && AllDigits(s[1..]))
  }

  /** f"0x{n:02X}" for a byte. */
  function ByteText(n: int): string
    requires 0 <= n < 256
  {
    "0x" + [HexDigit(n / 16), HexDigit(n % 16)]
  }

  /** `_normalize_channel_hash_value` for a text that is no secret; None stands for an error or no value. */
  function HashOfText(text: string): Option<string> {
    var raw := Strip(text);
    var n := if raw != "" && !HasPrefix(raw) && AllDigits(raw) then Digits(raw, 10, 0, false) else HexInt(raw);
    if n.None? || n.value < 0 || n.value > 255 then None else Some(ByteText(n.value))
  }

  lemma ByteTextHash(n: int)
    requires 0 <= n < 256
    ensures HashOfText(ByteText(n)) == Some(ByteText(n)) && Secret(ByteText(n)) == None
  {
    var s := ByteText(n);
    assert Strip(s) == s;
    TwoDigits(HexDigit(n / 16), HexDigit(n % 16));
    assert s[2..] == [HexDigit(n / 16), HexDigit(n % 16)];
  }

  lemma TwoDigits(a: char, b: char)
    requires IsHex(a) && IsHex(b)
    ensures Digits([a, b], 16, 0, true) == Some(HexValue(a) * 16 + HexValue(b))
  {
    assert [a, b][1..] == [b] && [b][1..] == "";
    assert Digits([b], 16, HexValue(a), true) == Some(HexValue(a) * 16 + HexValue(b));
  }

  lemma {:induction false} UpperHex(s: string)
    requires AllHex(s)
    ensures AllHex(Upper(s)) && Upper(Upper(s)) == Upper(s)
    ensures forall c | c in Upper(s) :: !IsSpace(c)
  {
    if s != "" {
      UpperHex(s[1..]);
      var rest := Upper(s[1..]);
      assert ([UpperChar(s[0])] + rest)[1..] == rest;
    }
  }

  /** A secret, once prefixed and in capitals, is read as the same secret again. */
  lemma SecretIsStable(text: string)
    requires Secret(text).Some?
    ensures var t := "0x" + Upper(Secret(text).value);
      Secret(t).Some? && "0x" + Upper(Secret(t).value) == t
  {
    var h := Secret(text).value;
    var t := "0x" + Upper(h);
    UpperHex(h);
    assert t[|t| - 1] in Upper(h);
    assert Strip(t) == t && t[2..] == Upper(h);
  }

  /** The public keys of a group: 1 to 32 bytes, in small letters. */
  function PublicKey(text: string): Option<string> {
    var low := Lower(Strip(text));
    var raw := if |low| >= 2 && low[..2] == "0x" then low[2..] else low;
    if 2 <= |raw| <= 64 && |raw| % 2 == 0 && AllLowerHex(raw) then Some("0x" + raw) else None
  }

  predicate AllLowerHex(s: string) {
    s == "" || (('0' <= s[0] <= '9' || 'a' <= s[0] <= 'f') && AllLowerHex(s[1..]))
  }

  lemma {:induction false} LowerHexFacts(s: string)
    requires AllLowerHex(s)
    ensures Lower(s) == s && forall c | c in s :: !IsSpace(c)
  {
    if s != "" {
      LowerHexFacts(s[1..]);
    }
  }

  lemma PrefixFacts(raw: string)
    requires AllLowerHex(raw) && raw != ""
    ensures var t := "0x" + raw; Strip(t) == t && Lower(t) == t && t[..2] == "0x" && t[2..] == raw
  {
    var t := "0x" + raw;
    LowerHexFacts(raw);
    assert t[|t| - 1] in raw;
    assert t[1..] == "x" + raw && t[1..][1..] == raw;
  }

  lemma PublicKeyIsStable(text: string)
    requires PublicKey(text).Some?
    ensures PublicKey(PublicKey(text).value) == PublicKey(text)
  {
    var low := Lower(Strip(text));
    PrefixFacts(if |low| >= 2 && low[..2] == "0x" then low[2..] else low);
  }

  /** The normalised keys are exactly the prefixed texts of 1 to 32 bytes in small digits. */
  lemma KeyOfDigits(raw: string)
    requires AllLowerHex(raw) && 2 <= |raw| <= 64 && |raw| % 2 == 0
    ensures PublicKey("0x" + raw) == Some("0x" + raw)
  {
    PrefixFacts(raw);
  }

  lemma KeyHasDigits(text: string) returns (raw: string)
    requires PublicKey(text).Some?
    ensures AllLowerHex(raw) && 2 <= |raw| <= 64 && |raw| % 2 == 0 && PublicKey(text) == Some("0x" + raw)
    ensures Lower(Strip(text)) == raw || Lower(Strip(text)) == "0x" + raw
  {
    var low := Lower(Strip(text));
    raw := if |low| >= 2 && low[..2] == "0x" then low[2..] else low;
    assert |low| >= 2 && low[..2] == "0x" ==> low == "0x" + low[2..];
  }

  /** 16 or 32 bytes of hexadecimal text are a secret, with or without a prefix. */
  lemma SecretIsRead(h: string)
    requires AllHex(h) && |h| in {32, 64}
    ensures Secret(h) == Some(h) && Secret("0x" + h) == Some(h)
  {
    HexIsBare(h);
  }

  /** Hexadecimal text is read as it stands, and without its prefix if it has one. */
  lemma HexIsBare(h: string)
    requires AllHex(h) && h != ""
    ensures Unprefixed(Strip(h)) == h && Unprefixed(Strip("0x" + h)) == h
  {
    HexHasNoSpace(h);
    var t := "0x" + h;
    assert h[0] in h && h[|h| - 1] in h && (|h| > 1 ==> h[1] in h);
    assert Strip(h) == h && !HasPrefix(h);
    assert t[|t| - 1] == h[|h| - 1] && Strip(t) == t && t[2..] == h;
  }

  lemma {:induction false} HexHasNoSpace(h: string)
    requires AllHex(h)
    ensures forall c | c in h :: IsHex(c) && !IsSpace(c)
  {
    if h != "" {
      HexHasNoSpace(h[1..]);
    }
  }
}
