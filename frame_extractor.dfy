/**
 * The brace-matching scanner of the mock GSPro server (`_extract_json`):
 * it finds one balanced `{...}` span in a text buffer, aware of JSON string
 * and escape context, and hands the span to the JSON decoder.
 *
 * The scan is specified by `Step` (one character of the loop), `Run` (the
 * loop state after a text) and `CloseFrom` (the first character at which
 * the loop returns). `ExtractJson` is the loop itself; `ExtractSpec` is
 * what it computes. The lemmas relate the scanner to the reference
 * serialization `Json.Emit`: a serialized object is framed exactly, its
 * proper prefixes are incomplete, and string content never moves the depth.
 */
module FrameExtractor {
  import opened Text
  import opened Json

  /** The three pieces of loop state: brace depth, inside a string, after a backslash. */
  datatype Scan = Scan(depth: int, inString: bool, escape: bool)

  const Start := Scan(0, false, false)

  /** The loop body for one character that does not end the scan. */
  function Step(st: Scan, c: char): Scan {
    if st.escape then st.(escape := false)
    else if c == '\\' then st.(escape := true)
    else if c == '"' then st.(inString := !st.inString)
    else if st.inString then st
    else if c == '{' then st.(depth := st.depth + 1)
    else if c == '}' then st.(depth := st.depth - 1)
    else st
  }

  /** The character at which the loop returns: an unescaped `}` outside strings taking depth from 1 to 0. */
  predicate Closes(st: Scan, c: char) {
    !st.escape && c == '}' && !st.inString && st.depth == 1
  }

  /** The loop state after scanning `s` from `st`. */
  function Run(st: Scan, s: string): Scan
    decreases |s|
  {
    if s == [] then st else Run(Step(st, s[0]), s[1..])
  }

  /** The index of the character at which the loop returns, if it returns inside `s`. */
  function CloseFrom(st: Scan, s: string): (r: Option<nat>)
    ensures r.Some? ==> r.value < |s|
    decreases |s|
  {
    if s == [] then None
    else if Closes(st, s[0]) then Some(0)
    else Shift(CloseFrom(Step(st, s[0]), s[1..]), 1)
  }

  function Shift(o: Option<nat>, k: nat): Option<nat> {
    match o
    case None => None
    case Some(i) => Some(i + k)
  }

  /**
   * What `json.loads` does with a span: a value, `JSONDecodeError`, or another
   * exception, such as `RecursionError` on very deep nesting or `ValueError`
   * on an integer literal longer than the interpreter's digit limit.
   */
  datatype Decoding = Decoded(value: JObject) | JsonError | OtherError

  /**
   * What `_extract_json` reports: `(message, end_index)`, the decoder's
   * `JSONDecodeError`, or any other exception the decoder raised.
   */
  datatype Extracted = Returned(message: Option<JObject>, endIdx: nat) | DecodeError | DecoderRaised

  /** `buffer.strip().startswith("{")`. */
  predicate BeginsWithBrace(buffer: string) {
    var t := LStrip(buffer);
    t != [] && t[0] == '{'
  }

  /** The outcome of scanning a buffer that the code has positioned at its start. */
  function ScanSpan(s: string, decode: string -> Decoding): Extracted {
    match CloseFrom(Start, s)
    case None => Returned(None, 0)
    case Some(i) =>
      match decode(s[..i + 1])
      case Decoded(m) => Returned(Some(m), i + 1)
      case JsonError => DecodeError
      case OtherError => DecoderRaised
  }

  /**
   * What `_extract_json` computes. When noise precedes the first `{`, the
   * scan runs over the re-sliced buffer and the end index is relative to
   * that slice, as in the source.
   */
  function ExtractSpec(buffer: string, decode: string -> Decoding): (r: Extracted)
    ensures r.Returned? && r.message.Some? ==> 0 < r.endIdx <= |buffer|
    ensures '{' !in buffer ==> r == Returned(None, |buffer|)
  {
    LStripSpec(buffer);
    if BeginsWithBrace(buffer) then ScanSpan(buffer, decode)
    else
      var start := Find(buffer, '{', 0);
      if start < 0 then Returned(None, |buffer|) else ScanSpan(buffer[start..], decode)
  }

  /** `_extract_json`: position the buffer at its first `{`, then run the brace-matching loop. */
  method ExtractJson(buffer: string, decode: string -> Decoding) returns (r: Extracted)
    ensures r == ExtractSpec(buffer, decode)
    ensures r.Returned? && r.message.Some? ==> 0 < r.endIdx <= |buffer|
    ensures '{' !in buffer ==> r == Returned(None, |buffer|)
  {
    var s := buffer;
    if !BeginsWithBrace(s) {
      var start := Find(s, '{', 0);
      if start < 0 {
        return Returned(None, |s|);
      }
      s := s[start..];
    }
    r := MatchBraces(s, decode);
  }

  /** The brace-matching loop (source lines 128-157) over the positioned buffer. */
  method MatchBraces(s: string, decode: string -> Decoding) returns (r: Extracted)
    ensures r == ScanSpan(s, decode)
  {
    var depth, inString, escape := 0, false, false;
    var i := 0;
    while i < |s|
      invariant 0 <= i <= |s|
      invariant CloseFrom(Start, s) == Shift(CloseFrom(Scan(depth, inString, escape), s[i..]), i)
    {
      ghost var st := Scan(depth, inString, escape);
      CloseFromUnfold(st, s, i);
      var c := s[i];
      if escape {
        escape := false;
      } else if c == '\\' {
        escape := true;
      } else if c == '"' {
        inString := !inString;
      } else if !inString {
        if c == '{' {
          depth := depth + 1;
        } else if c == '}' {
          depth := depth - 1;
          if depth == 0 {
            assert Closes(st, c);
            var m := decode(s[..i + 1]);
            match m {
              case Decoded(v) => return Returned(Some(v), i + 1);
              case JsonError => return DecodeError;
              case OtherError => return DecoderRaised;
            }
          }
        }
      }
      assert Scan(depth, inString, escape) == Step(st, c);
      i := i + 1;
    }
    return Returned(None, 0);
  }

  lemma CloseFromUnfold(st: Scan, s: string, i: nat)
    requires i < |s|
    ensures CloseFrom(st, s[i..]) ==
      if Closes(st, s[i]) then Some(0) else Shift(CloseFrom(Step(st, s[i]), s[i + 1..]), 1)
  {
    assert s[i..][1..] == s[i + 1..];
  }

  // The scan, characterized position by position.

  lemma {:induction false} CloseFromSpec(st: Scan, s: string)
    ensures CloseFrom(st, s).Some? ==>
      var i := CloseFrom(st, s).value;
      Closes(Run(st, s[..i]), s[i]) && forall j :: 0 <= j < i ==> !Closes(Run(st, s[..j]), s[j])
    ensures CloseFrom(st, s).None? ==> forall j :: 0 <= j < |s| ==> !Closes(Run(st, s[..j]), s[j])
    decreases |s|
  {
    if s != [] {
      CloseFromSpec(Step(st, s[0]), s[1..]);
      forall j | 0 < j <= |s| ensures Run(st, s[..j]) == Run(Step(st, s[0]), s[1..][..j - 1]) {
        assert s[..j][1..] == s[1..][..j - 1];
      }
      forall j | 0 < j < |s| ensures s[j] == s[1..][j - 1] {}
    }
  }

  lemma {:induction false} RunAppend(st: Scan, a: string, b: string)
    ensures Run(st, a + b) == Run(Run(st, a), b)
    decreases |a|
  {
    if a != [] {
      assert (a + b)[1..] == a[1..] + b;
      RunAppend(Step(st, a[0]), a[1..], b);
    } else {
      assert a + b == b;
    }
  }

  /** Where the scan of a concatenation returns: in the first part, or in the second after the first. */
  lemma {:induction false} CloseAppend(st: Scan, a: string, b: string)
    ensures CloseFrom(st, a + b) ==
      if CloseFrom(st, a).Some? then CloseFrom(st, a) else Shift(CloseFrom(Run(st, a), b), |a|)
    decreases |a|
  {
    if a != [] {
      assert (a + b)[0] == a[0];
      assert (a + b)[1..] == a[1..] + b;
      CloseAppend(Step(st, a[0]), a[1..], b);
    } else {
      assert a + b == b;
      match CloseFrom(st, b) {
        case None =>
        case Some(_) =>
      }
    }
  }

  // Text that leaves the scan where it was.

  /** Scanning `s` from `st` ends in `st` again and never returns. */
  ghost predicate Transparent(st: Scan, s: string) {
    Run(st, s) == st && CloseFrom(st, s) == None
  }

  lemma TransparentConcat(st: Scan, a: string, b: string)
    requires Transparent(st, a) && Transparent(st, b)
    ensures Transparent(st, a + b)
  {
    RunAppend(st, a, b);
    CloseAppend(st, a, b);
  }

  /** A character that the loop treats as inert. */
  predicate Inert(c: char) {
    c != '"' && c != '\\' && c != '{' && c != '}'
  }

  lemma {:induction false} InertTransparent(st: Scan, s: string)
    requires !st.escape
    requires forall i :: 0 <= i < |s| ==> Inert(s[i])
    ensures Transparent(st, s)
    decreases |s|
  {
    if s != [] {
      InertTransparent(st, s[1..]);
    }
  }

  lemma DecimalTransparent(st: Scan, n: int)
    requires !st.escape
    ensures Transparent(st, IntToDecimal(n))
  {
    var s := IntToDecimal(n);
    if n < 0 {
      assert s == "-" + NatToDecimal(-n);
      forall i | 0 < i < |s| ensures Inert(s[i]) {
        assert s[i] == NatToDecimal(-n)[i - 1];
      }
    }
    InertTransparent(st, s);
  }

  /** Inside a string, four hexadecimal digits change nothing. */
  lemma HexTransparent(st: Scan, n: nat)
    requires n < 0x10000
    requires !st.escape
    ensures Transparent(st, Hex4(n))
  {
    var digits := "0123456789abcdef";
    assert forall k :: 0 <= k < 16 ==> Inert(digits[k]);
    InertTransparent(st, Hex4(n));
  }

  /** A backslash pair: the escape flag is set and cleared, and nothing else moves. */
  lemma PairTransparent(st: Scan, c: char)
    requires st.inString && !st.escape
    ensures Transparent(st, ['\\', c])
  {
    var s := ['\\', c];
    var mid := st.(escape := true);
    assert s[1..] == [c];
    assert Step(st, s[0]) == mid && !Closes(st, s[0]);
    assert Step(mid, c) == st && !Closes(mid, c);
    assert Run(mid, [c]) == st;
    assert CloseFrom(mid, [c]) == None;
  }

  lemma EscapeCharTransparent(st: Scan, c: char)
    requires st.inString && !st.escape
    ensures Transparent(st, EscapeChar(c))
  {
    var n := c as int;
    if c == '"' || c == '\\' || c == '\n' || c == '\r' || c == '\t' || n == 8 || n == 12 {
      PairTransparent(st, EscapeChar(c)[1]);
      assert EscapeChar(c) == ['\\', EscapeChar(c)[1]];
    } else if ' ' <= c <= '~' {
      var t := [c];
      assert t[0] == c && t[1..] == [];
      assert Step(st, c) == st && !Closes(st, c);
      assert CloseFrom(st, t) == Shift(CloseFrom(st, []), 1);
      assert Run(st, t) == Run(st, []);
    } else if n < 0x10000 {
      PairTransparent(st, 'u');
      HexTransparent(st, n);
      TransparentConcat(st, "\\u", Hex4(n));
    } else {
      var hi, lo := 0xD800 + (n - 0x10000) / 0x400, 0xDC00 + (n - 0x10000) % 0x400;
      PairTransparent(st, 'u');
      HexTransparent(st, hi);
      HexTransparent(st, lo);
      TransparentConcat(st, "\\u", Hex4(hi));
      TransparentConcat(st, "\\u" + Hex4(hi), "\\u");
      TransparentConcat(st, "\\u" + Hex4(hi) + "\\u", Hex4(lo));
    }
  }

  lemma {:induction false} EscapeTransparent(st: Scan, s: string)
    requires st.inString && !st.escape
    ensures Transparent(st, Escape(s))
    decreases |s|
  {
    if s != [] {
      EscapeCharTransparent(st, s[0]);
      EscapeTransparent(st, s[1..]);
      TransparentConcat(st, EscapeChar(s[0]), Escape(s[1..]));
    }
  }

  /** A JSON string literal never changes the depth and never ends the scan, whatever it contains. */
  lemma StringTransparent(st: Scan, s: string)
    requires !st.inString && !st.escape
    ensures Transparent(st, Quote(s))
  {
    var inside := st.(inString := true);
    EscapeTransparent(inside, s);
    RunAppend(st, "\"", Escape(s));
    CloseAppend(st, "\"", Escape(s));
    RunAppend(st, "\"" + Escape(s), "\"");
    CloseAppend(st, "\"" + Escape(s), "\"");
  }

  /** The scan state between tokens: outside any string and not after a backslash. */
  predicate Between(st: Scan) {
    !st.escape && !st.inString
  }

  /** A serialized value, scanned at depth 1 or more, leaves the state as it was and never ends the scan. */
  lemma ValueTransparent(st: Scan, v: Json)
    requires Between(st) && st.depth >= 1
    ensures Transparent(st, Emit(v))
    decreases v, 2
  {
    match v {
      case JNull => InertTransparent(st, "null");
      case JBool(b) => InertTransparent(st, if b then "true" else "false");
      case JNum(n) => DecimalTransparent(st, n);
      case JStr(s) => StringTransparent(st, s);
      case JArr(items) =>
        InertTransparent(st, "[");
        ItemsTransparent(st, items);
        InertTransparent(st, "]");
        TransparentConcat(st, "[", EmitItems(items));
        TransparentConcat(st, "[" + EmitItems(items), "]");
      case JObj(members) =>
        var inner := st.(depth := st.depth + 1);
        MembersTransparent(inner, members);
        Nest(st, EmitMembers(members));
    }
  }

  /** `{` + body + `}` at depth `d >= 1`, when the body is transparent at depth `d + 1`. */
  lemma Nest(st: Scan, body: string)
    requires Between(st) && st.depth >= 1
    requires Transparent(st.(depth := st.depth + 1), body)
    ensures Transparent(st, "{" + body + "}")
  {
    var inner := st.(depth := st.depth + 1);
    assert Run(st, "{") == inner;
    assert CloseFrom(st, "{") == None;
    RunAppend(st, "{", body);
    CloseAppend(st, "{", body);
    assert !Closes(inner, '}');
    assert Run(inner, "}") == st;
    assert CloseFrom(inner, "}") == None;
    RunAppend(st, "{" + body, "}");
    CloseAppend(st, "{" + body, "}");
  }

  lemma ItemsTransparent(st: Scan, items: seq<Json>)
    requires Between(st) && st.depth >= 1
    ensures Transparent(st, EmitItems(items))
    decreases items, 1
  {
    if |items| == 1 {
      ValueTransparent(st, items[0]);
    } else if |items| > 1 {
      ValueTransparent(st, items[0]);
      InertTransparent(st, ", ");
      ItemsTransparent(st, items[1..]);
      TransparentConcat(st, Emit(items[0]), ", ");
      TransparentConcat(st, Emit(items[0]) + ", ", EmitItems(items[1..]));
    }
  }

  lemma MemberTransparent(st: Scan, m: Member)
    requires Between(st) && st.depth >= 1
    ensures Transparent(st, EmitMember(m))
    decreases m, 1
  {
    StringTransparent(st, m.key);
    InertTransparent(st, ": ");
    ValueTransparent(st, m.value);
    TransparentConcat(st, Quote(m.key), ": ");
    TransparentConcat(st, Quote(m.key) + ": ", Emit(m.value));
  }

  lemma MembersTransparent(st: Scan, members: seq<Member>)
    requires Between(st) && st.depth >= 1
    ensures Transparent(st, EmitMembers(members))
    decreases members, 1
  {
    if |members| == 1 {
      MemberTransparent(st, members[0]);
    } else if |members| > 1 {
      MemberTransparent(st, members[0]);
      InertTransparent(st, ", ");
      MembersTransparent(st, members[1..]);
      TransparentConcat(st, EmitMember(members[0]), ", ");
      TransparentConcat(st, EmitMember(members[0]) + ", ", EmitMembers(members[1..]));
    }
  }

  /** The scan of a serialized object returns exactly at its closing brace. */
  lemma ObjectFramed(obj: JObject)
    ensures CloseFrom(Start, EmitObject(obj)) == Some(|EmitObject(obj)| - 1)
  {
    var body := EmitMembers(obj);
    var inner := Scan(1, false, false);
    MembersTransparent(inner, obj);
    assert Run(Start, "{") == inner;
    assert CloseFrom(Start, "{") == None;
    RunAppend(Start, "{", body);
    CloseAppend(Start, "{", body);
    assert CloseFrom(inner, "}") == Some(0);
    CloseAppend(Start, "{" + body, "}");
    assert EmitObject(obj) == "{" + body + "}";
  }

  /** The loop's per-character rules: an unescaped quote toggles the string flag, braces inside a string leave the depth alone, and the character after a backslash is skipped. */
  lemma StepRules(st: Scan, c: char)
    ensures !st.escape && c == '"' ==> Step(st, c) == st.(inString := !st.inString)
    ensures !st.escape && st.inString && c != '"' && c != '\\' ==> Step(st, c) == st
    ensures st.escape ==> Step(st, c) == st.(escape := false) && !Closes(st, c)
    ensures st.inString ==> !Closes(st, c) && Step(st, c).depth == st.depth
  {
  }

  // Extraction of serialized objects.

  lemma ScanFramed(obj: JObject, rest: string, decode: string -> Decoding)
    requires decode(EmitObject(obj)) == Decoded(obj)
    ensures ScanSpan(EmitObject(obj) + rest, decode) == Returned(Some(obj), |EmitObject(obj)|)
  {
    var e := EmitObject(obj);
    ObjectFramed(obj);
    CloseAppend(Start, e, rest);
    assert (e + rest)[..|e|] == e;
  }

  /** A serialized object at the head of the buffer is extracted whole, whatever follows it. */
  lemma ExtractFramed(obj: JObject, rest: string, decode: string -> Decoding)
    requires decode(EmitObject(obj)) == Decoded(obj)
    ensures ExtractSpec(EmitObject(obj) + rest, decode) == Returned(Some(obj), |EmitObject(obj)|)
  {
    var b := EmitObject(obj) + rest;
    assert b[0] == '{' && !IsSpace(b[0]);
    assert LStrip(b) == b;
    ScanFramed(obj, rest, decode);
  }

  /** Every proper prefix of a serialized object is reported incomplete, consuming nothing. */
  lemma ExtractPrefixIncomplete(obj: JObject, k: nat, decode: string -> Decoding)
    requires 0 < k < |EmitObject(obj)|
    ensures ExtractSpec(EmitObject(obj)[..k], decode) == Returned(None, 0)
  {
    var e := EmitObject(obj);
    var p := e[..k];
    ObjectFramed(obj);
    assert e == p + e[k..];
    CloseAppend(Start, p, e[k..]);
    assert p[0] == '{' && !IsSpace(p[0]);
    assert LStrip(p) == p;
  }

  /** Noise with a non-blank character, then no `{`. */
  predicate IsNoise(noise: string) {
    '{' !in noise && LStrip(noise) != []
  }

  lemma NoiseLeads(noise: string, tail: string)
    requires IsNoise(noise) && tail != [] && tail[0] == '{'
    ensures !BeginsWithBrace(noise + tail)
    ensures Find(noise + tail, '{', 0) == |noise|
    ensures (noise + tail)[|noise|..] == tail
  {
    var b := noise + tail;
    assert forall i :: 0 <= i < |noise| ==> b[i] == noise[i];
    NoiseNotBlank(noise, tail);
    var r := Find(b, '{', 0);
    assert b[|noise|] == '{';
    assert r != -1;
  }

  lemma NoiseNotBlank(noise: string, tail: string)
    requires IsNoise(noise)
    ensures !BeginsWithBrace(noise + tail)
  {
    var b := noise + tail;
    LStripSpec(noise);
    LStripSpec(b);
    var p := |noise| - |LStrip(noise)|;
    assert noise[p] == LStrip(noise)[0];
    assert !IsSpace(b[p]);
    var t := LStrip(b);
    var k := |b| - |t|;
    assert k <= p;
    assert t[0] == b[k] == noise[k];
  }

  /**
   * As written: after noise, the end index is that of the re-sliced buffer
   * (the object's own length), not the object's end in the buffer the
   * caller slices.
   */
  lemma ExtractAfterNoise(noise: string, obj: JObject, rest: string, decode: string -> Decoding)
    requires IsNoise(noise)
    requires decode(EmitObject(obj)) == Decoded(obj)
    ensures ExtractSpec(noise + EmitObject(obj) + rest, decode) == Returned(Some(obj), |EmitObject(obj)|)
  {
    var e := EmitObject(obj);
    assert noise + e + rest == noise + (e + rest);
    NoiseLeads(noise, e + rest);
    ScanFramed(obj, rest, decode);
  }

  /** The extraction with the end index measured in the caller's buffer. */
  function ExtractFixed(buffer: string, decode: string -> Decoding): (r: Extracted)
    ensures r.Returned? && r.message.Some? ==> 0 < r.endIdx <= |buffer|
    ensures '{' !in buffer ==> r == Returned(None, |buffer|)
  {
    LStripSpec(buffer);
    if BeginsWithBrace(buffer) then ScanSpan(buffer, decode)
    else
      var start := Find(buffer, '{', 0);
      if start < 0 then Returned(None, |buffer|)
      else
        match ScanSpan(buffer[start..], decode)
        case Returned(Some(m), e) => Returned(Some(m), start + e)
        case other => other
  }

  /** Corrected: the caller's slice at the end index is exactly what follows the object. */
  lemma FixedConsumesObject(noise: string, obj: JObject, rest: string, decode: string -> Decoding)
    requires IsNoise(noise)
    requires decode(EmitObject(obj)) == Decoded(obj)
    ensures ExtractFixed(noise + EmitObject(obj) + rest, decode)
      == Returned(Some(obj), |noise| + |EmitObject(obj)|)
    ensures (noise + EmitObject(obj) + rest)[|noise| + |EmitObject(obj)|..] == rest
  {
    var e := EmitObject(obj);
    assert noise + e + rest == noise + (e + rest);
    NoiseLeads(noise, e + rest);
    ScanFramed(obj, rest, decode);
  }
}
