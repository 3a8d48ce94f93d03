/**
 * The text form of a schedule's `assignedMachines`: a JSON array of strings
 * (sections 5 and 7 of RFC 8259). `Encode` writes what `JSON.stringify` writes for a string
 * array; `Decode` reads what `JSON.parse` accepts for one.
 */
module Json {
  import opened Wrappers
  import opened Text
  import Js

  // ----- encoding -----

  /** The escape `JSON.stringify` writes for one character. */
  function Escape(c: char): (r: string)
    ensures |r| >= 1
  {
    if c == '"' then "\\\""
    else if c == '\\' then "\\\\"
    else if c == '\U{8}' then "\\b"
    else if c == '\U{C}' then "\\f"
    else if c == '\n' then "\\n"
    else if c == '\r' then "\\r"
    else if c == '\t' then "\\t"
    else if c < ' ' then "\\u00" + [DigitChar(c as int / 16), DigitChar(c as int % 16)]
    else [c]
  }

  /** The characters of a string literal, without the quotes. */
  function EscapeAll(s: string): string {
    if s == [] then "" else Escape(s[0]) + EscapeAll(s[1..])
  }

  /** `JSON.stringify(s)` for a string. */
  function EncodeString(s: string): string {
    "\"" + EscapeAll(s) + "\""
  }

  /** The elements of an array, separated by commas and no white space. */
  function EncodeItems(xs: seq<string>): string {
    if xs == [] then ""
    else if |xs| == 1 then EncodeString(xs[0])
    else EncodeString(xs[0]) + "," + EncodeItems(xs[1..])
  }

  /** `JSON.stringify(xs)` for an array of strings. */
  function Encode(xs: seq<string>): (e: string)
    ensures |e| >= 2 && e[0] == '[' && e[|e| - 1] == ']'
    ensures xs == [] <==> e == "[]"
  {
    "[" + EncodeItems(xs) + "]"
  }

  // ----- decoding -----

  /** White space between tokens: space, tab, line feed, carriage return. */
  predicate IsWs(c: char) {
    c == ' ' || c == '\t' || c == '\n' || c == '\r'
  }

  function SkipWs(s: string): (r: string)
    ensures |r| <= |s|
    ensures r == [] || !IsWs(r[0])
  {
    if s != [] && IsWs(s[0]) then SkipWs(s[1..]) else s
  }

  /** Four hexadecimal digits at the start of `s`, as a number. */
  function Hex4(s: string): (r: Option<nat>)
    ensures r.Some? ==> |s| >= 4 && r.value < 0x10000
  {
    if |s| >= 4 && Js.DigitRun(s[..4], 16) == 4 then
      HexBound(s[..4]);
      Some(Js.ValueOf(s[..4], 16))
    else None
  }

  lemma {:induction false} HexBound(z: string)
    requires forall i :: 0 <= i < |z| ==> Js.IsDigitIn(z[i], 16)
    ensures Js.ValueOf(z, 16) < Js.Pow(16, |z|)
  {
    if z != [] {
      var z' := z[..|z| - 1];
      HexBound(z');
      var v := Js.ValueOf(z', 16);
      assert v + 1 <= Js.Pow(16, |z'|);
      assert (v + 1) * 16 <= Js.Pow(16, |z'|) * 16;
    }
  }

  predicate IsHighSurrogate(v: int) { 0xD800 <= v <= 0xDBFF }

  predicate IsLowSurrogate(v: int) { 0xDC00 <= v <= 0xDFFF }

  /**
   * The character of an escape sequence `s` begins with (after its backslash), and the text after it.
   * A `\u` escape of a surrogate needs its partner right after it; a lone surrogate has no
   * character to stand for, and decodes to `None`.
   */
  function Unescape(s: string): (r: Option<(char, string)>)
    ensures r.Some? ==> |r.value.1| < |s|
  {
    if s == [] then None
    else if s[0] == '"' then Some(('"', s[1..]))
    else if s[0] == '\\' then Some(('\\', s[1..]))
    else if s[0] == '/' then Some(('/', s[1..]))
    else if s[0] == 'b' then Some(('\U{8}', s[1..]))
    else if s[0] == 'f' then Some(('\U{C}', s[1..]))
    else if s[0] == 'n' then Some(('\n', s[1..]))
    else if s[0] == 'r' then Some(('\r', s[1..]))
    else if s[0] == 't' then Some(('\t', s[1..]))
    else if s[0] == 'u' then
      match Hex4(s[1..])
      case None => None
      case Some(v) =>
        if IsLowSurrogate(v) then None
        else if !IsHighSurrogate(v) then Some((v as char, s[5..]))
        else if |s| >= 7 && s[5] == '\\' && s[6] == 'u' then
          match Hex4(s[7..])
          case None => None
          case Some(w) =>
            if IsLowSurrogate(w) then Some(((0x10000 + (v - 0xD800) * 0x400 + (w - 0xDC00)) as char, s[11..]))
            else None
        else None
    else None
  }

  /** The characters of a string literal up to its closing quote, and the text after that quote. */
  function DecodeChars(s: string): (r: Option<(string, string)>)
    ensures r.Some? ==> |r.value.1| < |s|
    decreases |s|
  {
    if s == [] then None
    else if s[0] == '"' then Some(("", s[1..]))
    else if s[0] < ' ' then None
    else
      var next := if s[0] == '\\' then Unescape(s[1..]) else Some((s[0], s[1..]));
      match next
      case None => None
      case Some((c, rest)) =>
        match DecodeChars(rest)
        case None => None
        case Some((t, after)) => Some(([c] + t, after))
  }

  /** Array elements after `[` or `,`: string literals separated by commas, up to the closing `]`. */
  function DecodeItems(s: string): (r: Option<(seq<string>, string)>)
    decreases |s|
  {
    var t := SkipWs(s);
    if t == [] || t[0] != '"' then None
    else
      match DecodeChars(t[1..])
      case None => None
      case Some((x, rest)) =>
        var u := SkipWs(rest);
        if u != [] && u[0] == ']' then Some(([x], u[1..]))
        else if u != [] && u[0] == ',' then
          match DecodeItems(u[1..])
          case None => None
          case Some((xs, after)) => Some(([x] + xs, after))
        else None
  }

  /** `JSON.parse(t)` for a text that must hold an array of strings; `None` when it does not. */
  function Decode(t: string): (d: Option<seq<string>>)
    ensures SkipWs(t) == [] || SkipWs(t)[0] != '[' ==> d.None?
  {
    var s := SkipWs(t);
    if s == [] || s[0] != '[' then None
    else
      var u := SkipWs(s[1..]);
      if u != [] && u[0] == ']' then
        (if SkipWs(u[1..]) == [] then Some([]) else None)
      else
        match DecodeItems(u)
        case None => None
        case Some((xs, rest)) => if SkipWs(rest) == [] then Some(xs) else None
  }

  // ----- round trip -----

  /** Text that does not start with white space is not skipped. */
  lemma SkipNoWs(s: string)
    requires s == [] || !IsWs(s[0])
    ensures SkipWs(s) == s
  {
  }

  /** What `DecodeChars` gives for the character `c` followed by `rest`. */
  function ThenChar(c: char, rest: string): Option<(string, string)> {
    match DecodeChars(rest)
    case None => None
    case Some((t, after)) => Some(([c] + t, after))
  }

  /** The escape of one character decodes back to it. */
  lemma UnescapeEscape(c: char, rest: string)
    ensures DecodeChars(Escape(c) + rest) == ThenChar(c, rest)
  {
    if c == '"' || c == '\\' || c == '\U{8}' || c == '\U{C}' || c == '\n' || c == '\r' || c == '\t' {
      UnescapeShort(c, rest);
    } else if c < ' ' {
      UnescapeControl(c, rest);
    } else {
      var e := Escape(c);
      assert (e + rest)[0] == c && (e + rest)[1..] == rest;
    }
  }

  /** The two-character escapes: a backslash and one letter or sign. */
  lemma UnescapeShort(c: char, rest: string)
    requires c == '"' || c == '\\' || c == '\U{8}' || c == '\U{C}' || c == '\n' || c == '\r' || c == '\t'
    ensures DecodeChars(Escape(c) + rest) == ThenChar(c, rest)
  {
    var e := Escape(c);
    assert |e| == 2 && e[0] == '\\';
    assert (e + rest)[0] == '\\' && (e + rest)[1..] == [e[1]] + rest;
    assert Unescape([e[1]] + rest) == Some((c, rest));
  }

  /** The other control characters: `\u00` and two hexadecimal digits. */
  lemma UnescapeControl(c: char, rest: string)
    requires c < ' ' && c != '\U{8}' && c != '\U{C}' && c != '\n' && c != '\r' && c != '\t'
    ensures DecodeChars(Escape(c) + rest) == ThenChar(c, rest)
  {
    var e := Escape(c);
    var h1, h2 := DigitChar(c as int / 16), DigitChar(c as int % 16);
    Js.DigitCharValue(c as int / 16);
    Js.DigitCharValue(c as int % 16);
    Js.DigitCharValue(0);
    var hex := ['0', '0', h1, h2];
    assert (e + rest)[1..] == ['u'] + hex + rest;
    assert (['u'] + hex + rest)[1..][..4] == hex;
    assert Js.DigitRun(hex, 16) == 4;
    assert Js.ValueOf(hex, 16) == c as int by {
      Js.ValueOfSnoc([], '0', 16);
      Js.ValueOfSnoc(['0'], '0', 16);
      Js.ValueOfSnoc(['0', '0'], h1, 16);
      Js.ValueOfSnoc(['0', '0', h1], h2, 16);
      assert [] + ['0'] == ['0'] && ['0'] + ['0'] == ['0', '0'];
      assert ['0', '0'] + [h1] == ['0', '0', h1] && ['0', '0', h1] + [h2] == hex;
    }
    assert (['u'] + hex + rest)[5..] == rest;
  }

  /** The escaped characters of a string, then a closing quote, decode back to the string. */
  lemma {:induction false} DecodeEscapeAll(s: string, rest: string)
    ensures DecodeChars(EscapeAll(s) + "\"" + rest) == Some((s, rest))
  {
    if s == [] {
      assert EscapeAll(s) + "\"" + rest == "\"" + rest;
    } else {
      var tail := EscapeAll(s[1..]) + "\"" + rest;
      assert EscapeAll(s) + "\"" + rest == Escape(s[0]) + tail;
      DecodeEscapeAll(s[1..], rest);
      UnescapeEscape(s[0], tail);
      assert [s[0]] + s[1..] == s;
    }
  }

  /** One encoded string literal at the start of the elements reads back, with the text after it. */
  lemma DecodeLiteral(x: string, tail: string)
    ensures var t := SkipWs(EncodeString(x) + tail);
      t != [] && t[0] == '"' && DecodeChars(t[1..]) == Some((x, tail))
  {
    var s := EncodeString(x) + tail;
    assert s == "\"" + (EscapeAll(x) + "\"" + tail);
    SkipNoWs(s);
    assert s[1..] == EscapeAll(x) + "\"" + tail;
    DecodeEscapeAll(x, tail);
  }

  /** The last element: a literal, then `]`. */
  lemma DecodeLastItem(x: string, rest: string)
    ensures DecodeItems(EncodeString(x) + "]" + rest) == Some(([x], rest))
  {
    var tail := "]" + rest;
    assert EncodeString(x) + "]" + rest == EncodeString(x) + tail;
    DecodeLiteral(x, tail);
    SkipNoWs(tail);
    assert tail[1..] == rest;
  }

  /** An element followed by a comma: the literal, then the remaining elements. */
  lemma DecodeNextItem(x: string, more: string)
    ensures DecodeItems(EncodeString(x) + "," + more)
         == (match DecodeItems(more) case None => None case Some((xs, after)) => Some(([x] + xs, after)))
  {
    var tail := "," + more;
    assert EncodeString(x) + "," + more == EncodeString(x) + tail;
    DecodeLiteral(x, tail);
    SkipNoWs(tail);
    assert tail[1..] == more;
  }

  /** The encoded elements of a non-empty array, then `]`, decode back to the elements. */
  lemma {:induction false} DecodeEncodeItems(xs: seq<string>, rest: string)
    requires xs != []
    ensures DecodeItems(EncodeItems(xs) + "]" + rest) == Some((xs, rest))
  {
    var x := xs[0];
    if |xs| == 1 {
      DecodeLastItem(x, rest);
      assert xs == [x];
    } else {
      var more := EncodeItems(xs[1..]) + "]" + rest;
      assert EncodeItems(xs) + "]" + rest == EncodeString(x) + "," + more;
      DecodeNextItem(x, more);
      DecodeEncodeItems(xs[1..], rest);
      assert [x] + xs[1..] == xs;
    }
  }

  /** `JSON.parse(JSON.stringify(xs))` gives back `xs` for every array of strings. */
  lemma DecodeEncode(xs: seq<string>)
    ensures Decode(Encode(xs)) == Some(xs)
  {
    if xs == [] {
      EncodeEmpty();
    } else {
      DecodeEncodeNonEmpty(xs);
    }
  }

  /** A non-empty array: `[`, the encoded elements and `]`. */
  lemma DecodeEncodeNonEmpty(xs: seq<string>)
    requires xs != []
    ensures Decode(Encode(xs)) == Some(xs)
  {
    var t := Encode(xs);
    SkipNoWs(t);
    assert t[1..] == EncodeItems(xs) + "]" + "";
    var u := t[1..];
    assert u[0] == '"';
    SkipNoWs(u);
    DecodeEncodeItems(xs, "");
  }

  /** The stored text of a missing machine list, `JSON.stringify([])`. */
  lemma EncodeEmpty()
    ensures Encode([]) == "[]"
    ensures Decode("[]") == Some([])
  {
    var t := "[]";
    SkipNoWs(t);
    SkipNoWs(t[1..]);
    assert t[1..][1..] == [];
  }
}
