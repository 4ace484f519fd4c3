/** `urlBase64ToUint8Array` (PwaFeaturesModal.tsx): the push key arrives in
    the URL-safe base64 alphabet without padding (section 5 of RFC 4648);
    it is padded with `=` to a multiple of four characters, mapped to the
    standard alphabet (section 4), decoded with `atob`, and copied byte by
    byte into a `Uint8Array`. `atob` is modelled as the forgiving-base64
    decode of the HTML standard, which is what browsers implement. */
module PwaFeatures {
  import opened Common

  newtype byte = x: int | 0 <= x < 256

  // ---------------------------------------------------------------------
  // Padding and the alphabet mapping

  /** `(4 - n % 4) % 4`: how many `=` bring a length up to a multiple of
      four; none when it already is one. */
  function Padding(n: nat): (p: nat)
    ensures p <= 3 && (n + p) % 4 == 0
    ensures n % 4 == 0 <==> p == 0
  {
    (4 - n % 4) % 4
  }

  /** `'='.repeat(k)` */
  function Repeat(c: char, k: nat): (s: string)
    ensures |s| == k && forall i :: 0 <= i < k ==> s[i] == c
  {
    if k == 0 then "" else [c] + Repeat(c, k - 1)
  }

  /** One character of `.replace(/-/g, '+').replace(/_/g, '/')`. */
  function StandardChar(c: char): char {
    if c == '-' then '+' else if c == '_' then '/' else c
  }

  /** `.replace(/-/g, '+').replace(/_/g, '/')`: every `-` becomes `+`, every
      `_` becomes `/`, nothing else changes and no `-` or `_` is left. */
  function ToStandard(s: string): (t: string)
    ensures |t| == |s|
    ensures forall i :: 0 <= i < |s| ==> t[i] == StandardChar(s[i])
    ensures forall i :: 0 <= i < |s| && s[i] == '-' ==> t[i] == '+'
    ensures forall i :: 0 <= i < |s| && s[i] == '_' ==> t[i] == '/'
    ensures forall i :: 0 <= i < |s| && s[i] != '-' && s[i] != '_' ==> t[i] == s[i]
    ensures '-' !in t && '_' !in t
  {
    if s == [] then []
    else [StandardChar(s[0])] + ToStandard(s[1..])
  }

  lemma {:induction false} ToStandardAppend(a: string, b: string)
    ensures ToStandard(a + b) == ToStandard(a) + ToStandard(b)
  {
    var l, r := ToStandard(a + b), ToStandard(a) + ToStandard(b);
    assert |l| == |r|;
    forall i | 0 <= i < |l| ensures l[i] == r[i] {
      if i < |a| {
        assert (a + b)[i] == a[i];
      } else {
        assert (a + b)[i] == b[i - |a|];
      }
    }
  }

  /** The string handed to `atob`: padded, then mapped to the standard
      alphabet; its length is a multiple of four. */
  function Prepare(base64String: string): (s: string)
    ensures |s| % 4 == 0 && |base64String| <= |s| <= |base64String| + 3
  {
    ToStandard(base64String + Repeat('=', Padding(|base64String|)))
  }

  // ---------------------------------------------------------------------
  // The base64 alphabets

  /** The character for a 6-bit value: the standard alphabet of section 4
      of RFC 4648, or with `url` the URL-safe one of section 5. */
  function Base64Char(v: int, url: bool): (c: char)
    requires 0 <= v < 64
  {
    if v < 26 then ('A' as int + v) as char
    else if v < 52 then ('a' as int + v - 26) as char
    else if v < 62 then ('0' as int + v - 52) as char
    else if v == 62 then (if url then '-' else '+')
    else (if url then '_' else '/')
  }

  /** The 6-bit value of a standard-alphabet character, if it is one. */
  function Base64Value(c: char): (v: Option<int>)
    ensures v.Some? ==> 0 <= v.value < 64 && Base64Char(v.value, false) == c
    ensures v.None? ==> forall w :: 0 <= w < 64 ==> Base64Char(w, false) != c
  {
    if 'A' <= c <= 'Z' then Some(c as int - 'A' as int)
    else if 'a' <= c <= 'z' then Some(c as int - 'a' as int + 26)
    else if '0' <= c <= '9' then Some(c as int - '0' as int + 52)
    else if c == '+' then Some(62)
    else if c == '/' then Some(63)
    else None
  }

  /** The mapping turns the URL-safe alphabet into the standard one. */
  lemma StandardOfUrlChar(v: int)
    requires 0 <= v < 64
    ensures StandardChar(Base64Char(v, true)) == Base64Char(v, false)
    ensures Base64Value(Base64Char(v, false)) == Some(v)
  {
  }

  // ---------------------------------------------------------------------
  // Encoding (the form the key is published in) and decoding

  predicate IsSextets(vals: seq<int>) {
    forall i :: 0 <= i < |vals| ==> 0 <= vals[i] < 64
  }

  /** One group of one to three bytes as two to four 6-bit values; the
      spare low bits of the last value are zero. */
  function EncodeGroup(g: seq<byte>): (vals: seq<int>)
    requires 1 <= |g| <= 3
    ensures |vals| == |g| + 1 && IsSextets(vals)
  {
    var b0 := g[0] as int;
    if |g| == 1 then [b0 / 4, (b0 % 4) * 16]
    else
      var b1 := g[1] as int;
      if |g| == 2 then [b0 / 4, (b0 % 4) * 16 + b1 / 16, (b1 % 16) * 4]
      else
        var b2 := g[2] as int;
        [b0 / 4, (b0 % 4) * 16 + b1 / 16, (b1 % 16) * 4 + b2 / 64, b2 % 64]
  }

  /** Bytes as 6-bit values, three bytes to four values, with a shorter
      group at the end. */
  function Sextets(b: seq<byte>): (vals: seq<int>)
    ensures IsSextets(vals)
    ensures |vals| % 4 != 1
    ensures |vals| % 4 == 0 <==> |b| % 3 == 0
  {
    if |b| == 0 then []
    else if |b| < 3 then EncodeGroup(b)
    else
      var head, tail := EncodeGroup(b[..3]), Sextets(b[3..]);
      assert |head + tail| == 4 + |tail| && |b| == 3 + |b[3..]|;
      head + tail
  }

  /** The values written out in one of the two alphabets. */
  function Chars(vals: seq<int>, url: bool): (s: string)
    requires IsSextets(vals)
    ensures |s| == |vals| && forall i :: 0 <= i < |vals| ==> s[i] == Base64Char(vals[i], url)
  {
    seq(|vals|, i requires 0 <= i < |vals| => Base64Char(vals[i], url))
  }

  /** Base64 without padding, in the URL-safe (`url`) or standard alphabet. */
  function Encode(b: seq<byte>, url: bool): (s: string)
    ensures |s| % 4 != 1 && '=' !in s
  {
    Chars(Sextets(b), url)
  }

  /** The values of a standard-alphabet string, or `None` at the first
      character outside the alphabet. */
  function Values(s: string): (r: Option<seq<int>>)
    ensures r.Some? ==> |r.value| == |s| && IsSextets(r.value)
    ensures r.Some? ==> forall i :: 0 <= i < |s| ==> Base64Value(s[i]) == Some(r.value[i])
    ensures r.None? ==> exists i :: 0 <= i < |s| && Base64Value(s[i]).None?
  {
    if s == [] then Some([])
    else
      match Base64Value(s[0])
      case None => None
      case Some(v) =>
        match Values(s[1..])
        case None => None
        case Some(rest) =>
          assert forall i :: 1 <= i < |s| ==> s[i] == s[1..][i - 1];
          Some([v] + rest)
  }

  /** Two to four values back to bytes: four values give three bytes; two
      values leave 12 bits, of which the low 4 are dropped, and three leave
      18, of which the low 2 are dropped. */
  function DecodeGroup(vals: seq<int>): (g: seq<byte>)
    requires 2 <= |vals| <= 4 && IsSextets(vals)
    ensures |g| == |vals| - 1
  {
    var v0, v1 := vals[0], vals[1];
    if |vals| == 2 then [(v0 * 4 + v1 / 16) as byte]
    else
      var v2 := vals[2];
      if |vals| == 3 then [(v0 * 4 + v1 / 16) as byte, ((v1 % 16) * 16 + v2 / 4) as byte]
      else
        var v3 := vals[3];
        [(v0 * 4 + v1 / 16) as byte, ((v1 % 16) * 16 + v2 / 4) as byte, ((v2 % 4) * 64 + v3) as byte]
  }

  /** The decoding part of `atob`, group by group. */
  function Decode(vals: seq<int>): (b: seq<byte>)
    requires IsSextets(vals) && |vals| % 4 != 1
  {
    if |vals| == 0 then []
    else if |vals| < 4 then DecodeGroup(vals)
    else DecodeGroup(vals[..4]) + Decode(vals[4..])
  }

  lemma OneByte(b0: int)
    requires 0 <= b0 < 256
    ensures b0 / 4 * 4 + (b0 % 4) * 16 / 16 == b0
  {
  }

  lemma TwoBytes(b0: int, b1: int)
    requires 0 <= b0 < 256 && 0 <= b1 < 256
    ensures b0 / 4 * 4 + ((b0 % 4) * 16 + b1 / 16) / 16 == b0
    ensures ((b0 % 4) * 16 + b1 / 16) % 16 * 16 + (b1 % 16) * 4 / 4 == b1
  {
  }

  lemma ThreeBytes(b1: int, b2: int)
    requires 0 <= b1 < 256 && 0 <= b2 < 256
    ensures ((b1 % 16) * 4 + b2 / 64) % 4 * 64 + b2 % 64 == b2
    ensures ((b1 % 16) * 4 + b2 / 64) / 4 == b1 % 16
  {
  }

  /** Each group decodes to the bytes it was encoded from. */
  lemma GroupRoundTrip(g: seq<byte>)
    requires 1 <= |g| <= 3
    ensures DecodeGroup(EncodeGroup(g)) == g
  {
    if |g| == 1 {
      OneByte(g[0] as int);
    } else if |g| == 2 {
      TwoBytes(g[0] as int, g[1] as int);
    } else {
      TwoBytes(g[0] as int, g[1] as int);
      ThreeBytes(g[1] as int, g[2] as int);
    }
  }

  /** Decoding undoes encoding. */
  lemma {:induction false} DecodeSextets(b: seq<byte>)
    ensures Decode(Sextets(b)) == b
  {
    if 0 < |b| < 3 {
      GroupRoundTrip(b);
    } else if |b| >= 3 {
      var q, rest := EncodeGroup(b[..3]), Sextets(b[3..]);
      assert (q + rest)[..4] == q && (q + rest)[4..] == rest;
      GroupRoundTrip(b[..3]);
      DecodeSextets(b[3..]);
      assert b == b[..3] + b[3..];
    }
  }

  // ---------------------------------------------------------------------
  // atob

  /** ASCII whitespace: tab, line feed, form feed, carriage return, space. */
  function IsAsciiWhitespace(c: char): bool {
    c == '\t' || c == '\n' || c == '\U{000C}' || c == '\r' || c == ' '
  }

  function NotAsciiWhitespace(c: char): bool {
    !IsAsciiWhitespace(c)
  }

  /** Drops one or two `=` at the end. */
  function StripPadding(d: string): (r: string)
    ensures |r| <= |d| && r == d[..|r|]
  {
    if |d| >= 2 && d[|d| - 2..] == "==" then d[..|d| - 2]
    else if |d| >= 1 && d[|d| - 1] == '=' then d[..|d| - 1]
    else d
  }

  /** The bytes as the characters of a binary string. */
  function Latin1(b: seq<byte>): (s: string)
    ensures |s| == |b| && forall i :: 0 <= i < |b| ==> s[i] as int == b[i] as int
  {
    seq(|b|, i requires 0 <= i < |b| => b[i] as int as char)
  }

  /** The first steps of `atob`: whitespace is removed, and a length that
      is a multiple of four loses one or two trailing `=`. */
  function Clean(data: string): (d: string)
    ensures |d| <= |data|
  {
    var d := Filter(NotAsciiWhitespace, data);
    if |d| % 4 == 0 then StripPadding(d) else d
  }

  /** `atob`: after `Clean`, a length of the form 4k+1 or a character
      outside the standard alphabet fails (an exception, `None` here);
      otherwise the values are decoded to a binary string, whose character
      codes are all below 256. */
  function Atob(data: string): (r: Option<string>)
    ensures r.Some? ==> forall i :: 0 <= i < |r.value| ==> r.value[i] as int < 256
  {
    var d := Clean(data);
    if |d| % 4 == 1 then None
    else
      match Values(d)
      case None => None
      case Some(vals) => Some(Latin1(Decode(vals)))
  }

  /** An unpadded standard-alphabet string followed by the padding that
      rounds it up to a multiple of four loses exactly that padding. */
  lemma StripAddedPadding(e: string)
    requires '=' !in e && |e| % 4 != 1
    ensures StripPadding(e + Repeat('=', Padding(|e|))) == e
  {
    var p := Padding(|e|);
    if p == 2 {
      assert Repeat('=', 2) == "==";
      StripTwo(e);
    } else if p == 1 {
      assert Repeat('=', 1) == "=";
      StripOne(e);
    } else {
      assert p == 0 && e + Repeat('=', 0) == e;
      StripNone(e);
    }
  }

  lemma StripTwo(e: string)
    ensures StripPadding(e + "==") == e
  {
    var d := e + "==";
    assert d[|d| - 2..] == "==";
    assert d[..|d| - 2] == e;
  }

  lemma StripOne(e: string)
    requires '=' !in e && e != ""
    ensures StripPadding(e + "=") == e
  {
    var d := e + "=";
    assert d[|d| - 2] == e[|e| - 1];
    assert d[..|d| - 1] == e;
  }

  lemma StripNone(e: string)
    requires '=' !in e
    ensures StripPadding(e) == e
  {
    if |e| >= 1 {
      assert e[|e| - 1] in e;
    }
  }

  /** A string without whitespace whose length is a multiple of four only
      loses its padding. */
  lemma CleanUnspaced(d: string)
    requires |d| % 4 == 0
    requires forall c :: c in d ==> NotAsciiWhitespace(c)
    ensures Clean(d) == StripPadding(d)
  {
    FilterAll(NotAsciiWhitespace, d);
  }

  /** The standard-alphabet encoding has no whitespace and reads back as
      the values it was written from. */
  lemma ValuesOfChars(vals: seq<int>)
    requires IsSextets(vals)
    ensures Values(Chars(vals, false)) == Some(vals)
    ensures forall c :: c in Chars(vals, false) ==> NotAsciiWhitespace(c)
  {
    var s := Chars(vals, false);
    forall i | 0 <= i < |vals| ensures Base64Value(s[i]) == Some(vals[i]) {
      StandardOfUrlChar(vals[i]);
    }
    ValuesAllValid(s, vals);
  }

  lemma {:induction false} ValuesAllValid(s: string, vals: seq<int>)
    requires |s| == |vals|
    requires forall i :: 0 <= i < |s| ==> Base64Value(s[i]) == Some(vals[i])
    ensures Values(s) == Some(vals)
  {
    if s != [] {
      ValuesAllValid(s[1..], vals[1..]);
      assert vals == [vals[0]] + vals[1..];
    }
  }

  /** Mapping a URL-safe encoding yields the standard encoding. */
  lemma StandardOfUrl(b: seq<byte>)
    ensures ToStandard(Encode(b, true)) == Encode(b, false)
  {
    var vals := Sextets(b);
    forall i | 0 <= i < |vals| ensures ToStandard(Encode(b, true))[i] == Encode(b, false)[i] {
      StandardOfUrlChar(vals[i]);
    }
  }

  /** The string `Prepare` builds from a URL-safe key is the padded
      standard encoding. */
  lemma PrepareEncoded(b: seq<byte>)
    ensures Prepare(Encode(b, true)) == Encode(b, false) + Repeat('=', Padding(|Encode(b, false)|))
  {
    var e := Encode(b, true);
    var pad := Repeat('=', Padding(|e|));
    ToStandardAppend(e, pad);
    StandardOfUrl(b);
    assert ToStandard(pad) == pad;
  }

  /** `atob`'s first steps turn a prepared URL-safe key into the unpadded
      standard encoding. */
  lemma CleanPrepared(b: seq<byte>)
    ensures Clean(Prepare(Encode(b, true))) == Encode(b, false)
  {
    var e := Encode(b, false);
    var pad := Repeat('=', Padding(|e|));
    PrepareEncoded(b);
    ValuesOfChars(Sextets(b));
    var d := e + pad;
    assert forall c :: c in d ==> NotAsciiWhitespace(c) by {
      forall c | c in d ensures NotAsciiWhitespace(c) {
        if c !in e { assert c in pad; }
      }
    }
    CleanUnspaced(d);
    StripAddedPadding(e);
  }

  /** `atob` of a prepared URL-safe key gives back the key's bytes. */
  lemma AtobPrepared(b: seq<byte>)
    ensures Atob(Prepare(Encode(b, true))) == Some(Latin1(b))
  {
    CleanPrepared(b);
    ValuesOfChars(Sextets(b));
    DecodeSextets(b);
  }

  // ---------------------------------------------------------------------
  // The conversion

  /** Each character code stored into a `Uint8Array` slot, which keeps
      the code modulo 256. */
  function Uint8(raw: string): (b: seq<byte>)
    ensures |b| == |raw|
    ensures forall i :: 0 <= i < |raw| ==> b[i] as int == raw[i] as int % 256
  {
    seq(|raw|, i requires 0 <= i < |raw| => (raw[i] as int % 256) as byte)
  }

  lemma Uint8Latin1(b: seq<byte>)
    ensures Uint8(Latin1(b)) == b
  {
    var r := Uint8(Latin1(b));
    forall i | 0 <= i < |b| ensures r[i] == b[i] {
    }
  }

  /** The bytes `urlBase64ToUint8Array` returns, or `None` when `atob`
      throws. */
  function Converted(base64String: string): Option<seq<byte>>
  {
    match Atob(Prepare(base64String))
    case None => None
    case Some(raw) => Some(Uint8(raw))
  }

  /** A key published as unpadded base64url converts back to its bytes. */
  lemma ConvertedEncoded(b: seq<byte>)
    ensures Converted(Encode(b, true)) == Some(b)
  {
    AtobPrepared(b);
    Uint8Latin1(b);
  }

  /** A key of length 4k+1 without whitespace is rejected: it gets three
      `=`, `atob` strips only two, and the one left is not a base64
      character. */
  lemma ConvertedRejectsStrayChar(s: string)
    requires |s| % 4 == 1
    requires forall c :: c in s ==> NotAsciiWhitespace(c)
    ensures Converted(s) == None
  {
    var d := CleanStray(s);
    assert d[|d| - 1] == '=';
    assert Base64Value(d[|d| - 1]).None?;
  }

  lemma CleanStray(s: string) returns (d: string)
    requires |s| % 4 == 1
    requires forall c :: c in s ==> NotAsciiWhitespace(c)
    ensures d == Clean(Prepare(s)) && d == ToStandard(s) + "="
  {
    PrepareStray(s);
    var t := ToStandard(s);
    var p := t + "===";
    StandardNoWhitespace(s);
    CleanUnspaced(p);
    StripThree(t);
    d := t + "=";
  }

  lemma StripThree(t: string)
    ensures StripPadding(t + "===") == t + "="
  {
    var p := t + "===";
    assert p[|p| - 2..] == "==";
    assert p[..|p| - 2] == t + "=";
  }

  lemma PrepareStray(s: string)
    requires |s| % 4 == 1
    ensures Prepare(s) == ToStandard(s) + "==="
  {
    PreparePadded(s);
    StrayPadding(|s|);
    var pad := Repeat('=', 3);
    assert |pad| == 3 && forall i :: 0 <= i < 3 ==> pad[i] == '=';
    assert pad == "===";
  }

  lemma StrayPadding(n: nat)
    requires n % 4 == 1
    ensures Padding(n) == 3
  {
  }

  /** `Prepare` maps the key and appends the padding, which the mapping
      leaves alone. */
  lemma PreparePadded(s: string)
    ensures Prepare(s) == ToStandard(s) + Repeat('=', Padding(|s|))
  {
    var pad := Repeat('=', Padding(|s|));
    ToStandardAppend(s, pad);
    assert ToStandard(pad) == pad;
  }

  lemma StandardNoWhitespace(s: string)
    requires forall c :: c in s ==> NotAsciiWhitespace(c)
    ensures forall c :: c in ToStandard(s) + "===" ==> NotAsciiWhitespace(c)
  {
    var t := ToStandard(s);
    forall c | c in t + "===" ensures NotAsciiWhitespace(c) {
      if c in t {
        var i :| 0 <= i < |t| && t[i] == c;
        assert s[i] in s;
      }
    }
  }

  /** On a binary string the `Uint8Array` keeps every code as it is. */
  lemma CodesBelow256(raw: string)
    requires forall i :: 0 <= i < |raw| ==> raw[i] as int < 256
    ensures forall i :: 0 <= i < |raw| ==> Uint8(raw)[i] as int == raw[i] as int
  {
  }

  /** `new Uint8Array(rawData.length)` filled with `rawData.charCodeAt(i)`
      for every `i` in order. */
  method CharCodes(rawData: string) returns (outputArray: array<byte>)
    ensures outputArray.Length == |rawData|
    ensures forall i :: 0 <= i < |rawData| ==> outputArray[i] as int == rawData[i] as int % 256
    ensures outputArray[..] == Uint8(rawData)
  {
    outputArray := new byte[|rawData|];
    for i := 0 to |rawData|
      invariant forall k :: 0 <= k < i ==> outputArray[k] as int == rawData[k] as int % 256
    {
      outputArray[i] := (rawData[i] as int % 256) as byte;
    }
  }

  /** `urlBase64ToUint8Array`: `None` when `atob` rejects the padded,
      mapped key; otherwise an array as long as the decoded string whose
      byte `i` is the code of character `i`. */
  method UrlBase64ToUint8Array(base64String: string) returns (outputArray: Option<array<byte>>)
    ensures outputArray.None? <==> Converted(base64String).None?
    ensures outputArray.Some? ==>
      var rawData := Atob(Prepare(base64String)).value;
      outputArray.value.Length == |rawData| &&
      forall i :: 0 <= i < |rawData| ==> outputArray.value[i] as int == rawData[i] as int
    ensures outputArray.Some? ==> Converted(base64String) == Some(outputArray.value[..])
  {
    var padding := Repeat('=', Padding(|base64String|));
    var base64 := ToStandard(base64String + padding);
    var decoded := Atob(base64);
    if decoded.None? {
      return None;
    }
    var a := CharCodes(decoded.value);
    CodesBelow256(decoded.value);
    outputArray := Some(a);
  }
}
