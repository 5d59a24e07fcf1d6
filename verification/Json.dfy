/** The JSON layer of the event payloads: encoding/json's string escaping and a
    decoder for the objects the gateway writes (internal/protocol/types.go,
    internal/protocol/sse.go). Strings are sequences of Unicode scalar values. */
module Json {
  import opened Base
  import opened Protocol

  // ---- Characters ----

  function HexDigit(n: nat): char
    requires n < 16
  {
    if n < 10 then (n + 48) as char else (n + 87) as char
  }

  function HexValue(c: char): Option<nat> {
    if '0' <= c <= '9' then Some(c as int - 48)
    else if 'a' <= c <= 'f' then Some(c as int - 87)
    else if 'A' <= c <= 'F' then Some(c as int - 55)
    else None
  }

  function Hex4(n: nat): (s: string)
    requires n < 0x10000
    ensures |s| == 4
  {
    [HexDigit(n / 4096), HexDigit(n / 256 % 16), HexDigit(n / 16 % 16), HexDigit(n % 16)]
  }

  /** The value of four hexadecimal digits. */
  function Unhex4(s: string): Option<nat>
    requires |s| == 4
  {
    var a, b, c, d := HexValue(s[0]), HexValue(s[1]), HexValue(s[2]), HexValue(s[3]);
    if a.Some? && b.Some? && c.Some? && d.Some?
    then Some(a.value * 4096 + b.value * 256 + c.value * 16 + d.value)
    else None
  }

  lemma HexRoundTrip(n: nat)
    requires n < 0x10000
    ensures Unhex4(Hex4(n)) == Some(n)
  {
    DigitRoundTrip(n / 4096);
    DigitRoundTrip(n / 256 % 16);
    DigitRoundTrip(n / 16 % 16);
    DigitRoundTrip(n % 16);
    DigitsAddUp(n);
  }

  lemma DigitRoundTrip(d: nat)
    requires d < 16
    ensures HexValue(HexDigit(d)) == Some(d)
  { }

  lemma DigitsAddUp(n: nat)
    ensures n == n / 4096 * 4096 + n / 256 % 16 * 256 + n / 16 % 16 * 16 + n % 16
  {
    assert n == n / 16 * 16 + n % 16;
    assert n / 16 == n / 256 * 16 + n / 16 % 16;
    assert n / 256 == n / 4096 * 16 + n / 256 % 16;
  }

  /** The characters written as \\u escapes: controls, and those json.Marshal
      keeps away from HTML and JavaScript. */
  predicate NeedsUnicodeEscape(c: char) {
    c < ' ' || c == '<' || c == '>' || c == '&' || c == '\U{2028}' || c == '\U{2029}'
  }

  function EscapeChar(c: char): (s: string)
    ensures s != "" && s[0] != '\"'
    ensures s[0] != '\\' ==> s == [c] && ' ' <= c
  {
    if c == '\"' then "\\\""
    else if c == '\\' then "\\\\"
    else if c == '\U{0008}' then "\\b"
    else if c == '\U{000C}' then "\\f"
    else if c == '\n' then "\\n"
    else if c == '\r' then "\\r"
    else if c == '\t' then "\\t"
    else if NeedsUnicodeEscape(c) then "\\u" + Hex4(c as int)
    else [c]
  }

  function Escape(s: string): string {
    if s == "" then "" else EscapeChar(s[0]) + Escape(s[1..])
  }

  /** Reads one character of a string literal: the character and how much it took. */
  function ParseChar(s: string): (r: Option<(char, nat)>)
    requires s != ""
    ensures r.Some? ==> 0 < r.value.1 <= |s|
  {
    if s[0] != '\\' then (if s[0] < ' ' then None else Some((s[0], 1)))
    else if |s| < 2 then None
    else
      match s[1]
      case '\"' => Some(('\"', 2))
      case '\\' => Some(('\\', 2))
      case '/' => Some(('/', 2))
      case 'b' => Some(('\U{0008}', 2))
      case 'f' => Some(('\U{000C}', 2))
      case 'n' => Some(('\n', 2))
      case 'r' => Some(('\r', 2))
      case 't' => Some(('\t', 2))
      case 'u' =>
        if |s| < 6 then None
        else
          var code := Unhex4(s[2..6]);
          if code.Some? && (code.value < 0xD800 || 0xE000 <= code.value < 0x10000)
          then Some((code.value as char, 6))
          else None
      case _ => None
  }

  /** Reads a string literal after its opening quote: the value, and what follows
      the closing quote. */
  function ParseString(s: string): (r: Option<(string, string)>)
    decreases |s|
  {
    if s == "" then None
    else if s[0] == '\"' then Some(("", s[1..]))
    else
      var c := ParseChar(s);
      if c.None? then None
      else
        var rest := ParseString(s[c.value.1..]);
        if rest.None? then None else Some(([c.value.0] + rest.value.0, rest.value.1))
  }

  lemma CharRoundTrip(c: char, rest: string)
    ensures ParseChar(EscapeChar(c) + rest) == Some((c, |EscapeChar(c)|))
  {
    var e := EscapeChar(c);
    if |e| == 6 {
      assert (e + rest)[2..6] == Hex4(c as int);
      HexRoundTrip(c as int);
    }
  }

  lemma CharTruncated(c: char, p: string)
    requires p != "" && p < EscapeChar(c)
    ensures ParseChar(p) == None
  { }

  lemma {:induction false} StringRoundTrip(t: string, rest: string)
    ensures ParseString(Escape(t) + "\"" + rest) == Some((t, rest))
  {
    if t == "" {
      assert Escape(t) + "\"" + rest == "\"" + rest;
    } else {
      var e, tail := EscapeChar(t[0]), Escape(t[1..]) + "\"" + rest;
      assert Escape(t) + "\"" + rest == e + tail;
      StringRoundTrip(t[1..], rest);
      ParseFirst(t[0], t[1..], tail, rest);
      assert [t[0]] + t[1..] == t;
    }
  }

  /** One more escaped character in front. */
  lemma ParseFirst(c: char, t: string, tail: string, rest: string)
    requires ParseString(tail) == Some((t, rest))
    ensures ParseString(EscapeChar(c) + tail) == Some(([c] + t, rest))
  {
    var e := EscapeChar(c);
    CharRoundTrip(c, tail);
    assert (e + tail)[|e|..] == tail;
  }

  /** A string literal cut short is never accepted. */
  lemma {:induction false} StringTruncated(t: string, p: string)
    requires p < Escape(t) + "\""
    ensures ParseString(p) == None
  {
    if t != "" && p != "" {
      var e, tail := EscapeChar(t[0]), Escape(t[1..]) + "\"";
      assert Escape(t) + "\"" == e + tail;
      if |p| < |e| {
        assert p == e[..|p|];
        CharTruncated(t[0], p);
      } else {
        assert p == e + p[|e|..] && p[|e|..] < tail;
        CharRoundTrip(t[0], p[|e|..]);
        StringTruncated(t[1..], p[|e|..]);
      }
    }
  }

  // ---- Objects ----

  /** A JSON object with string fields, cut at its string values: literal text
      up to and including an opening quote, then a value with its closing quote. */
  datatype Piece = Lit(text: string) | Str(value: string)

  function Render(ps: seq<Piece>): string {
    if ps == [] then ""
    else Text(ps[0]) + Render(ps[1..])
  }

  function Text(p: Piece): string {
    match p
    case Lit(t) => t
    case Str(v) => Escape(v) + "\""
  }

  function Values(ps: seq<Piece>): seq<string> {
    if ps == [] then []
    else (if ps[0].Str? then [ps[0].value] else []) + Values(ps[1..])
  }

  /** Matches `s` against the literals of `shape` and returns the values in between. */
  function Parse(shape: seq<Piece>, s: string): Option<seq<string>>
    decreases |shape|
  {
    if shape == [] then (if s == "" then Some([]) else None)
    else
      match shape[0]
      case Lit(t) => if t <= s then Parse(shape[1..], s[|t|..]) else None
      case Str(_) =>
        var v := ParseString(s);
        if v.None? then None
        else
          var vs := Parse(shape[1..], v.value.1);
          if vs.None? then None else Some([v.value.0] + vs.value)
  }

  predicate SameShape(a: seq<Piece>, b: seq<Piece>) {
    |a| == |b| && forall i | 0 <= i < |a| :: if a[i].Lit? then b[i] == a[i] else b[i].Str?
  }

  lemma {:induction false} ObjectRoundTrip(shape: seq<Piece>, ps: seq<Piece>)
    requires SameShape(shape, ps)
    ensures Parse(shape, Render(ps)) == Some(Values(ps))
  {
    if shape != [] {
      ObjectRoundTrip(shape[1..], ps[1..]);
      match ps[0]
      case Lit(t) =>
        assert shape[0] == ps[0] && Render(ps) == t + Render(ps[1..]);
        assert Render(ps)[|t|..] == Render(ps[1..]);
        assert Values(ps) == Values(ps[1..]);
      case Str(v) =>
        StringRoundTrip(v, Render(ps[1..]));
    }
  }

  /** An object cut short is never accepted. */
  lemma {:induction false} ObjectTruncated(shape: seq<Piece>, ps: seq<Piece>, p: string)
    requires SameShape(shape, ps) && p < Render(ps)
    ensures Parse(shape, p) == None
  {
    var tail := Render(ps[1..]);
    match ps[0]
    case Lit(t) =>
      if t <= p {
        assert p[|t|..] < tail by { assert Render(ps) == t + tail; }
        ObjectTruncated(shape[1..], ps[1..], p[|t|..]);
      }
    case Str(v) =>
      var lit := Escape(v) + "\"";
      assert Render(ps) == lit + tail;
      if |p| < |lit| {
        assert p == lit[..|p|];
        StringTruncated(v, p);
      } else {
        assert p == lit + p[|lit|..] && p[|lit|..] < tail;
        StringRoundTrip(v, p[|lit|..]);
        ObjectTruncated(shape[1..], ps[1..], p[|lit|..]);
      }
  }

  // ---- Payloads ----

  function Pieces(p: Payload): seq<Piece> {
    match p
    case Token(d) => [Lit("{\"delta\":\""), Str(d), Lit("}")]
    case Done(r) => [Lit("{\"finish_reason\":\""), Str(r), Lit("}")]
    case Error(c, m) => [Lit("{\"code\":\""), Str(c), Lit(",\"message\":\""), Str(m), Lit("}")]
  }

  function Marshal(p: Payload): string { Render(Pieces(p)) }

  /** The event name a payload is sent under. */
  function EventName(p: Payload): string {
    match p
    case Token(_) => "token"
    case Done(_) => "done"
    case Error(_, _) => "error"
  }

  /** Decodes the data of an event sent under `name`. */
  function Unmarshal(name: string, data: string): Option<Payload> {
    if name == "token" then
      var vs := Parse(Pieces(Token("")), data);
      if vs.Some? && |vs.value| == 1 then Some(Token(vs.value[0])) else None
    else if name == "done" then
      var vs := Parse(Pieces(Done("")), data);
      if vs.Some? && |vs.value| == 1 then Some(Done(vs.value[0])) else None
    else if name == "error" then
      var vs := Parse(Pieces(Payload.Error("", "")), data);
      if vs.Some? && |vs.value| == 2 then Some(Payload.Error(vs.value[0], vs.value[1])) else None
    else None
  }

  lemma ValuesAt(ps: seq<Piece>, i: nat)
    requires i < |ps|
    ensures Values(ps[i..]) == (if ps[i].Str? then [ps[i].value] else []) + Values(ps[i + 1..])
  {
    assert ps[i..][1..] == ps[i + 1..];
  }

  lemma OneValueRoundTrip(key: string, v: string, ps: seq<Piece>)
    requires ps == [Lit(key), Str(v), Lit("}")]
    ensures Parse([Lit(key), Str(""), Lit("}")], Render(ps)) == Some([v])
  {
    ValuesAt(ps, 2);
    ValuesAt(ps, 1);
    ValuesAt(ps, 0);
    assert ps[0..] == ps;
    ObjectRoundTrip([Lit(key), Str(""), Lit("}")], ps);
    assert Values(ps) == [v];
  }

  lemma TwoValuesRoundTrip(key: string, v: string, key': string, v': string, ps: seq<Piece>)
    requires ps == [Lit(key), Str(v), Lit(key'), Str(v'), Lit("}")]
    ensures Parse([Lit(key), Str(""), Lit(key'), Str(""), Lit("}")], Render(ps)) == Some([v, v'])
  {
    ValuesAt(ps, 4);
    ValuesAt(ps, 3);
    ValuesAt(ps, 2);
    ValuesAt(ps, 1);
    ValuesAt(ps, 0);
    assert ps[0..] == ps;
    ObjectRoundTrip([Lit(key), Str(""), Lit(key'), Str(""), Lit("}")], ps);
    assert Values(ps) == [v, v'];
  }

  lemma PayloadRoundTrip(p: Payload)
    ensures Unmarshal(EventName(p), Marshal(p)) == Some(p)
  {
    match p
    case Token(d) => OneValueRoundTrip("{\"delta\":\"", d, Pieces(p));
    case Done(r) => OneValueRoundTrip("{\"finish_reason\":\"", r, Pieces(p));
    case Error(c, m) => TwoValuesRoundTrip("{\"code\":\"", c, ",\"message\":\"", m, Pieces(p));
  }

  /** A payload cut short never decodes, as that event or with other values. */
  lemma PayloadTruncated(p: Payload, data: string)
    requires data < Marshal(p)
    ensures Unmarshal(EventName(p), data) == None
  {
    match p
    case Token(d) => ObjectTruncated(Pieces(Token("")), Pieces(p), data);
    case Done(r) => ObjectTruncated(Pieces(Done("")), Pieces(p), data);
    case Error(c, m) => ObjectTruncated(Pieces(Payload.Error("", "")), Pieces(p), data);
  }

  /** No control character, so in particular no line break, and none with a meaning in HTML. */
  predicate Printable(s: string) { forall c | c in s :: ' ' <= c && c != '<' && c != '>' && c != '&' }

  lemma {:induction false} EscapeIsPrintable(t: string)
    ensures Printable(Escape(t))
  {
    if t != "" {
      EscapeIsPrintable(t[1..]);
    }
  }

  lemma {:induction false} RenderIsPrintable(ps: seq<Piece>)
    requires forall i | 0 <= i < |ps| && ps[i].Lit? :: Printable(ps[i].text)
    ensures Printable(Render(ps))
  {
    if ps != [] {
      RenderIsPrintable(ps[1..]);
      if ps[0].Str? { EscapeIsPrintable(ps[0].value); }
    }
  }

  lemma RenderStep(p: Piece, rest: seq<Piece>)
    ensures Render([p] + rest) == Text(p) + Render(rest)
  {
    assert ([p] + rest)[1..] == rest;
  }

  lemma {:induction false} RenderAppend(ps: seq<Piece>, qs: seq<Piece>)
    ensures Render(ps + qs) == Render(ps) + Render(qs)
  {
    if ps == [] {
      assert ps + qs == qs;
    } else {
      var p, rest := ps[0], ps[1..];
      assert ps == [p] + rest && ps + qs == [p] + (rest + qs);
      RenderAppend(rest, qs);
      RenderStep(p, rest);
      RenderStep(p, rest + qs);
      AppendIsAssociative(Text(p), Render(rest), Render(qs));
    }
  }

  lemma RenderLit(t: string)
    ensures Render([Lit(t)]) == t
  {
    assert [Lit(t)][1..] == [];
  }

  lemma RenderEnds(ps: seq<Piece>, t: string)
    requires t != ""
    ensures var s := Render(ps + [Lit(t)]); |s| >= |t| && s[|s| - |t|..] == t
  {
    RenderAppend(ps, [Lit(t)]);
    RenderLit(t);
  }

  lemma LiteralsArePrintable()
    ensures Printable("{\"delta\":\"") && Printable("{\"finish_reason\":\"") && Printable("{\"code\":\"")
    ensures Printable(",\"message\":\"") && Printable("}")
  { }

  /** Every payload is one printable line between braces. */
  lemma MarshalIsOneLine(p: Payload)
    ensures Printable(Marshal(p))
    ensures var s := Marshal(p); |s| >= 2 && s[0] == '{' && s[|s| - 1] == '}'
  {
    var ps := Pieces(p);
    LiteralsArePrintable();
    RenderIsPrintable(ps);
    RenderEnds(ps[..|ps| - 1], "}");
    assert ps[..|ps| - 1] + [Lit("}")] == ps;
    assert Text(ps[0])[0] == '{' && Marshal(p) == Text(ps[0]) + Render(ps[1..]);
  }

  // ---- Cut payloads, for any decoder ----

  /** Where a scanner of JSON text stands: open braces, and whether it is inside a
      string, and there just after a backslash. */
  datatype Lex = Lex(depth: int, inside: bool, escaped: bool)

  function Next(st: Lex, c: char): Lex {
    if st.escaped then st.(escaped := false)
    else if st.inside then
      if c == '\\' then st.(escaped := true) else if c == '\"' then st.(inside := false) else st
    else if c == '\"' then st.(inside := true)
    else if c == '{' then st.(depth := st.depth + 1)
    else if c == '}' then st.(depth := st.depth - 1)
    else st
  }

  function Scan(st: Lex, s: string): Lex {
    if s == "" then st else Next(Scan(st, s[..|s| - 1]), s[|s| - 1])
  }

  /** A string or a brace has not been closed: no decoder of JSON takes such a text. */
  predicate Unclosed(st: Lex) { st.inside || st.depth > 0 }

  lemma {:induction false} ScanAppend(st: Lex, a: string, b: string)
    ensures Scan(st, a + b) == Scan(Scan(st, a), b)
  {
    if b == "" {
      assert a + b == a;
    } else {
      ScanAppend(st, a, b[..|b| - 1]);
      assert (a + b)[..|a + b| - 1] == a + b[..|b| - 1];
    }
  }

  lemma {:induction false} NoBraceCloses(st: Lex, s: string)
    requires '}' !in s
    ensures Scan(st, s).depth >= st.depth
  {
    if s != "" {
      NoBraceCloses(st, s[..|s| - 1]);
    }
  }

  /** Text without quotes, backslashes and braces leaves the scanner where it is. */
  predicate Plain(s: string) { forall c | c in s :: c != '\"' && c != '\\' && c != '{' && c != '}' }

  lemma {:induction false} ScanPlain(st: Lex, s: string)
    requires Plain(s) && !st.escaped
    ensures Scan(st, s) == st
  {
    if s != "" {
      var front := s[..|s| - 1];
      assert s[|s| - 1] in s && forall c | c in front :: c in s;
      ScanPlain(st, front);
    }
  }

  lemma ScanOne(st: Lex, c: char)
    ensures Scan(st, [c]) == Next(st, c)
  {
    assert [c][..0] == "";
  }

  /** The escape of one character is read inside the string, whole or cut. */
  lemma ScanEscapeChar(st: Lex, c: char, p: string)
    requires st.inside && !st.escaped && p <= EscapeChar(c)
    ensures Scan(st, p).inside && Scan(st, p).depth == st.depth
    ensures p == EscapeChar(c) ==> Scan(st, p) == st
  {
    var e := EscapeChar(c);
    if |p| > 0 {
      assert p == [p[0]] + p[1..];
      ScanAppend(st, [p[0]], p[1..]);
      ScanOne(st, p[0]);
      if |e| > 1 && |p| > 1 {
        assert p[1..] == [p[1]] + p[2..];
        ScanAppend(Next(st, p[0]), [p[1]], p[2..]);
        ScanOne(Next(st, p[0]), p[1]);
        PlainTail(c, p);
        ScanPlain(st, p[2..]);
      }
    }
  }

  lemma PlainTail(c: char, p: string)
    requires p <= EscapeChar(c) && |p| > 1
    ensures Plain(p[2..]) && p[0] == '\\'
  {
    forall k | 0 <= k < |p[2..]|
      ensures p[2..][k] != '\"' && p[2..][k] != '\\' && p[2..][k] != '{' && p[2..][k] != '}'
    {
      assert p[2..][k] == EscapeChar(c)[k + 2];
    }
  }

  lemma {:induction false} ScanEscape(st: Lex, t: string, p: string)
    requires st.inside && !st.escaped && p <= Escape(t)
    ensures Scan(st, p).inside && Scan(st, p).depth == st.depth
    ensures p == Escape(t) ==> Scan(st, p) == st
  {
    if t != "" {
      var e, rest := EscapeChar(t[0]), Escape(t[1..]);
      if |p| <= |e| {
        assert p == e[..|p|];
        ScanEscapeChar(st, t[0], p);
        if p == Escape(t) { ScanEscape(st, t[1..], ""); }
      } else {
        var q := p[|e|..];
        assert p == e + q && q <= rest;
        ScanAppend(st, e, q);
        ScanEscapeChar(st, t[0], e);
        ScanEscape(st, t[1..], q);
      }
    }
  }

  /** A key with its quotes and colon, and the opening quote of its value, after the
      character that comes before it. */
  function Key(first: char, word: string): string { [first] + ("\"" + (word + ("\":" + "\""))) }

  lemma ScanKey(st: Lex, first: char, word: string)
    requires !st.inside && !st.escaped && Plain(word) && (first == '{' || first == ',')
    ensures Scan(st, Key(first, word)) == Next(st, first).(inside := true)
  {
    var open, inner := Next(st, first), Next(st, first).(inside := true);
    ScanOne(st, first);
    ScanOne(open, '\"');
    ScanOne(inner, '\"');
    ScanOne(open, ':');
    ScanPlain(inner, word);
    assert "\"" == ['\"'] && "\":" == ['\"'] + [':'];
    ScanAppend(inner, ['\"'], [':']);
    ScanAppend(open, "\":"[1..], "");
    ScanAppend(inner, "\":", "\"");
    ScanAppend(inner, word, "\":" + "\"");
    ScanAppend(open, "\"", word + ("\":" + "\""));
    ScanAppend(st, [first], "\"" + (word + ("\":" + "\"")));
  }

  lemma KeyHasNoClose(first: char, word: string)
    requires Plain(word) && first != '}'
    ensures '}' !in Key(first, word)
  { }

  /** A cut key, from a character that opens an object or continues one. */
  lemma KeyIsUnclosed(st: Lex, key: string, p: string)
    requires !st.inside && !st.escaped && '}' !in key && p <= key && p != ""
    requires (key[0] == '{' && st.depth == 0) || (key[0] == ',' && st.depth == 1)
    ensures Unclosed(Scan(st, p))
  {
    var rest := p[1..];
    assert p == [p[0]] + rest;
    ScanAppend(st, [p[0]], rest);
    ScanOne(st, p[0]);
    assert forall c | c in rest :: c in key;
    NoBraceCloses(Next(st, p[0]), rest);
  }

  /** A cut value, up to its closing quote. */
  lemma ValueIsUnclosed(inner: Lex, t: string, q: string)
    requires inner == Lex(1, true, false) && q <= Escape(t) + "\""
    ensures Unclosed(Scan(inner, q))
    ensures q == Escape(t) + "\"" ==> Scan(inner, q) == Lex(1, false, false)
  {
    if |q| <= |Escape(t)| {
      assert q <= Escape(t);
      ScanEscape(inner, t, q);
    } else {
      assert q == Escape(t) + "\"" && "\"" == ['\"'];
      ScanEscape(inner, t, Escape(t));
      ScanAppend(inner, Escape(t), "\"");
      ScanOne(inner, '\"');
    }
  }

  /** One field of an object, from its key to the closing quote of its value: after
      the first character something is open all the way. */
  lemma FieldIsUnclosed(st: Lex, key: string, value: string, t: string, p: string)
    requires !st.inside && !st.escaped && key != "" && '}' !in key && value == Escape(t) + "\""
    requires (key[0] == '{' && st.depth == 0) || (key[0] == ',' && st.depth == 1)
    requires Scan(st, key) == Lex(1, true, false) && p <= key + value && p != ""
    ensures Unclosed(Scan(st, p))
    ensures p == key + value ==> Scan(st, p) == Lex(1, false, false)
  {
    if |p| <= |key| {
      assert p <= key;
      KeyIsUnclosed(st, key, p);
      assert p != key + value;
    } else {
      var q := p[|key|..];
      assert p == key + q && q <= value;
      ScanAppend(st, key, q);
      ValueIsUnclosed(Lex(1, true, false), t, q);
    }
  }

  const OUTSIDE := Lex(0, false, false)

  lemma KeyOpens(first: char, word: string, key: string)
    requires Plain(word) && key == Key(first, word) && (first == '{' || first == ',')
    ensures '}' !in key && key != "" && key[0] == first
    ensures Scan(Lex(if first == '{' then 0 else 1, false, false), key) == Lex(1, true, false)
  {
    KeyHasNoClose(first, word);
    ScanKey(Lex(if first == '{' then 0 else 1, false, false), first, word);
  }

  lemma OneFieldIsUnclosed(word: string, key: string, t: string, text: string, p: string)
    requires Plain(word) && key == Key('{', word) && text == key + (Escape(t) + "\"") + "}"
    requires p < text && p != ""
    ensures Unclosed(Scan(OUTSIDE, p))
  {
    KeyOpens('{', word, key);
    assert p <= key + (Escape(t) + "\"");
    FieldIsUnclosed(OUTSIDE, key, Escape(t) + "\"", t, p);
  }

  lemma TwoFieldsAreUnclosed(word: string, key: string, t: string, word': string, key': string, t': string,
                             text: string, p: string)
    requires Plain(word) && key == Key('{', word) && Plain(word') && key' == Key(',', word')
    requires text == key + (Escape(t) + "\"") + (key' + (Escape(t') + "\"")) + "}"
    requires p < text && p != ""
    ensures Unclosed(Scan(OUTSIDE, p))
  {
    var v, v' := Escape(t) + "\"", Escape(t') + "\"";
    KeyOpens('{', word, key);
    KeyOpens(',', word', key');
    var q := PrefixOfTwo(key + v, key' + v', text, p);
    if p <= key + v {
      FieldIsUnclosed(OUTSIDE, key, v, t, p);
    } else {
      ScanAppend(OUTSIDE, key + v, q);
      FieldIsUnclosed(OUTSIDE, key, v, t, key + v);
      FieldIsUnclosed(Lex(1, false, false), key', v', t', q);
    }
  }

  lemma PrefixOfTwo(f: string, f': string, text: string, p: string) returns (q: string)
    requires text == f + f' + "}" && p < text
    ensures p <= f || (q != "" && p == f + q && q <= f')
  {
    assert p <= f + f';
    q := if |p| <= |f| then "" else p[|f|..];
  }

  /** The text of a key and its value. */
  lemma RenderField(key: string, t: string)
    ensures Render([Lit(key), Str(t)]) == key + (Escape(t) + "\"")
  {
    assert [Lit(key), Str(t)][1..] == [Str(t)] && [Str(t)][1..] == [];
    assert Render([Str(t)]) == Escape(t) + "\"" + "";
  }

  /** A payload cut short has a string or its brace unclosed, or is empty: whatever
      decoder of JSON reads it, it is no JSON text. */
  lemma CutIsUnclosed(p: Payload, data: string)
    requires data < Marshal(p) && data != ""
    ensures Unclosed(Scan(OUTSIDE, data))
  {
    match p
    case Token(d) =>
      TokenKey();
      CutTokenIsUnclosed("{\"delta\":\"", "delta", d, Pieces(p), data);
    case Done(r) =>
      DoneKey();
      CutTokenIsUnclosed("{\"finish_reason\":\"", "finish_reason", r, Pieces(p), data);
    case Error(c, m) =>
      ErrorKeys();
      CutErrorIsUnclosed("code", "{\"code\":\"", "message", ",\"message\":\"", c, m, Pieces(p), data);
  }

  lemma TokenKey()
    ensures "{\"delta\":\"" == Key('{', "delta") && Plain("delta")
  { }

  lemma DoneKey()
    ensures "{\"finish_reason\":\"" == Key('{', "finish_reason") && Plain("finish_reason")
  { }

  lemma ErrorKeys()
    ensures "{\"code\":\"" == Key('{', "code") && ",\"message\":\"" == Key(',', "message")
    ensures Plain("code") && Plain("message")
  { }

  lemma CutTokenIsUnclosed(key: string, word: string, t: string, ps: seq<Piece>, data: string)
    requires Plain(word) && key == Key('{', word) && ps == [Lit(key), Str(t), Lit("}")]
    requires data < Render(ps) && data != ""
    ensures Unclosed(Scan(OUTSIDE, data))
  {
    assert ps == [Lit(key), Str(t)] + [Lit("}")];
    RenderAppend([Lit(key), Str(t)], [Lit("}")]);
    RenderField(key, t);
    RenderLit("}");
    OneFieldIsUnclosed(word, key, t, Render(ps), data);
  }

  lemma RenderTwoFields(key: string, key': string, t: string, t': string, ps: seq<Piece>)
    requires ps == [Lit(key), Str(t), Lit(key'), Str(t'), Lit("}")]
    ensures Render(ps) == key + (Escape(t) + "\"") + (key' + (Escape(t') + "\"")) + "}"
  {
    var f, f' := [Lit(key), Str(t)], [Lit(key'), Str(t')];
    assert ps == f + f' + [Lit("}")];
    RenderAppend(f + f', [Lit("}")]);
    RenderAppend(f, f');
    RenderField(key, t);
    RenderField(key', t');
    RenderLit("}");
  }

  lemma CutErrorIsUnclosed(word: string, key: string, word': string, key': string, t: string, t': string,
                           ps: seq<Piece>, data: string)
    requires Plain(word) && key == Key('{', word) && Plain(word') && key' == Key(',', word')
    requires ps == [Lit(key), Str(t), Lit(key'), Str(t'), Lit("}")]
    requires data < Render(ps) && data != ""
    ensures Unclosed(Scan(OUTSIDE, data))
  {
    RenderTwoFields(key, key', t, t', ps);
    TwoFieldsAreUnclosed(word, key, t, word', key', t', Render(ps), data);
  }
}
