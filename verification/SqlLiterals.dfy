/** The values of a table dump (admin/sqlconsole.go): how they are written as SQL literals, and how
    MySQL reads those literals back.  Bytes are written as chars. */
module SqlLiterals {
  import opened Decimal

  /** A scanned column value.  A float is known by the text it prints as; a time, or any other
      value the driver returns, by its text. */
  datatype SqlValue =
    | Null
    | Int(n: int)
    | Float(token: string)
    | Bool(b: bool)
    | Printed(text: string)
    | Bytes(bytes: string)

  /** What MySQL reads. */
  datatype Literal = LNull | LPlain(token: string) | LHex(bytes: string) | LString(bytes: string)

  const NUL := 0 as char
  const SUB := 26 as char

  // ---------------------------------------------------------------- writing

  /** A character as it stands inside quotes. */
  function Escape(c: char): string {
    if c == NUL then "\\0"
    else if c == '\n' then "\\n"
    else if c == '\r' then "\\r"
    else if c == '\\' then "\\\\"
    else if c == '\'' then "\\'"
    else if c == '"' then "\\\""
    else if c == SUB then "\\Z"
    else [c]
  }

  function EscapeAll(s: string): string {
    if s == "" then "" else EscapeAll(s[..|s| - 1]) + Escape(s[|s| - 1])
  }

  function Quoted(s: string): string {
    "'" + EscapeAll(s) + "'"
  }

  function HexDigit(n: nat): char
    requires n < 16
  {
    "0123456789abcdef"[n]
  }

  predicate AreBytes(s: string) {
    forall i :: 0 <= i < |s| ==> s[i] as int < 256
  }

  function Hex(s: string): string
    requires AreBytes(s)
  {
    if s == "" then "" else [HexDigit(s[0] as int / 16), HexDigit(s[0] as int % 16)] + Hex(s[1..])
  }

  predicate IsDelimiter(c: char) {
    c == ',' || c == ')'
  }

  predicate NoDelimiter(s: string) {
    forall i :: 0 <= i < |s| ==> !IsDelimiter(s[i])
  }

  /** A text that stands for itself: no delimiter in it, and not the form of another literal. */
  predicate IsPlain(token: string) {
    token != "" && token != "NULL" && token[0] != '\'' && !("0x" <= token) && NoDelimiter(token)
  }

  predicate Writable(v: SqlValue) {
    match v
    case Float(token) => IsPlain(token)
    case Bytes(bytes) => AreBytes(bytes)
    case _ => true
  }

  function ValueText(v: SqlValue, binary: bool): string
    requires Writable(v)
  {
    match v
    case Null => "NULL"
    case Int(n) => FormatInt(n)
    case Float(token) => token
    case Bool(b) => if b then "1" else "0"
    case Printed(text) => Quoted(text)
    case Bytes(bytes) => if !binary then Quoted(bytes) else if bytes == "" then "''" else "0x" + Hex(bytes)
  }

  /** The literal a value is to be read back as. */
  function LiteralOf(v: SqlValue, binary: bool): Literal {
    match v
    case Null => LNull
    case Int(n) => LPlain(FormatInt(n))
    case Float(token) => LPlain(token)
    case Bool(b) => LPlain(if b then "1" else "0")
    case Printed(text) => LString(text)
    case Bytes(bytes) => if binary && bytes != "" then LHex(bytes) else LString(bytes)
  }

  // ---------------------------------------------------------------- reading

  /** The character a backslash escape stands for.  \% and \_ keep their backslash. */
  function Unescape(c: char): string {
    if c == '0' then [NUL]
    else if c == 'n' then "\n"
    else if c == 'r' then "\r"
    else if c == 't' then "\t"
    else if c == 'b' then [8 as char]
    else if c == 'Z' then [SUB]
    else if c == '%' || c == '_' then ['\\', c]
    else [c]
  }

  /** Reads on within a quoted string of which `acc` has been read. */
  function ReadQuoted(s: string, acc: string): (r: Option<(string, string)>)
    ensures r.Some? ==> |r.value.1| < |s|
  {
    if s == "" then None
    else if s[0] == '\'' then
      if |s| > 1 && s[1] == '\'' then ReadQuoted(s[2..], acc + "'") else Some((acc, s[1..]))
    else if s[0] == '\\' then
      if |s| == 1 then None else ReadQuoted(s[2..], acc + Unescape(s[1]))
    else ReadQuoted(s[1..], acc + [s[0]])
  }

  /** How much of `s` comes before the next delimiter. */
  function PlainLength(s: string): (n: nat)
    ensures n <= |s|
  {
    if s == "" || IsDelimiter(s[0]) then 0 else 1 + PlainLength(s[1..])
  }

  function Nibble(c: char): (r: Option<nat>)
    ensures r.Some? ==> r.value < 16
  {
    if '0' <= c <= '9' then Some(c as int - '0' as int)
    else if 'a' <= c <= 'f' then Some(c as int - 'a' as int + 10)
    else if 'A' <= c <= 'F' then Some(c as int - 'A' as int + 10)
    else None
  }

  function ReadHex(s: string): Option<string> {
    if s == "" then Some("")
    else if |s| == 1 then None
    else
      var hi, lo, rest := Nibble(s[0]), Nibble(s[1]), ReadHex(s[2..]);
      if hi == None || lo == None || rest == None then None
      else Some([(hi.value * 16 + lo.value) as char] + rest.value)
  }

  function PlainLiteral(token: string): Option<Literal> {
    if token == "" then None
    else if token == "NULL" then Some(LNull)
    else if "0x" <= token then
      var h := ReadHex(token[2..]);
      if h == None then None else Some(LHex(h.value))
    else Some(LPlain(token))
  }

  /** Reads one literal off the front of `s`. */
  function ReadLiteral(s: string): (r: Option<(Literal, string)>)
    ensures r.Some? ==> |r.value.1| < |s|
  {
    if s == "" then None
    else if s[0] == '\'' then
      var q := ReadQuoted(s[1..], "");
      if q == None then None else Some((LString(q.value.0), q.value.1))
    else
      var n := PlainLength(s);
      var l := PlainLiteral(s[..n]);
      if l == None then None else Some((l.value, s[n..]))
  }

  // ---------------------------------------------------------------- reading what was written

  lemma ReadEscape(c: char, s: string, acc: string)
    ensures ReadQuoted(Escape(c) + s, acc) == ReadQuoted(s, acc + [c])
  {
    var t := Escape(c) + s;
    if |Escape(c)| == 2 {
      assert t[0] == '\\' && t[1] == Escape(c)[1] && t[2..] == s;
      assert Unescape(Escape(c)[1]) == [c];
    } else {
      assert t[0] == c && t[1..] == s;
    }
  }

  lemma {:induction false} ReadEscaped(x: string, s: string, acc: string)
    ensures ReadQuoted(EscapeAll(x) + s, acc) == ReadQuoted(s, acc + x)
  {
    if x == "" {
      assert EscapeAll(x) + s == s && acc + x == acc;
    } else {
      var n := |x| - 1;
      var tail := Escape(x[n]) + s;
      assert EscapeAll(x) + s == EscapeAll(x[..n]) + tail;
      ReadEscaped(x[..n], tail, acc);
      ReadEscape(x[n], s, acc + x[..n]);
      assert acc + x[..n] + [x[n]] == acc + x;
    }
  }

  /** Any bytes at all survive quoting, whatever follows the closing quote but another quote. */
  lemma QuotedReadsBack(x: string, rest: string)
    requires rest == "" || rest[0] != '\''
    ensures ReadLiteral(Quoted(x) + rest) == Some((LString(x), rest))
  {
    var s := Quoted(x) + rest;
    var tail := "'" + rest;
    assert s[0] == '\'' && s[1..] == EscapeAll(x) + tail;
    ReadEscaped(x, tail, "");
    assert "" + x == x;
    assert tail[1..] == rest && (|tail| > 1 ==> tail[1] == rest[0]);
  }

  lemma {:induction false} PlainEnds(token: string, rest: string)
    requires NoDelimiter(token) && rest != "" && IsDelimiter(rest[0])
    ensures PlainLength(token + rest) == |token|
  {
    if token == "" {
      assert token + rest == rest;
    } else {
      assert (token + rest)[0] == token[0] && (token + rest)[1..] == token[1..] + rest;
      PlainEnds(token[1..], rest);
    }
  }

  lemma PlainReadsBack(token: string, rest: string)
    requires token != "" && token[0] != '\'' && NoDelimiter(token) && rest != "" && IsDelimiter(rest[0])
    ensures ReadLiteral(token + rest) ==
            (match PlainLiteral(token) case None => None case Some(l) => Some((l, rest)))
  {
    var s := token + rest;
    PlainEnds(token, rest);
    assert s[0] == token[0] && s[..|token|] == token && s[|token|..] == rest;
  }

  lemma NibbleOf(n: nat)
    requires n < 16
    ensures Nibble(HexDigit(n)) == Some(n) && !IsDelimiter(HexDigit(n))
  {}

  /** Hexadecimal gives back the bytes. */
  lemma {:induction false} HexReadsBack(s: string)
    requires AreBytes(s)
    ensures ReadHex(Hex(s)) == Some(s) && NoDelimiter(Hex(s))
  {
    if s != "" {
      var b := s[0] as int;
      HexReadsBack(s[1..]);
      NibbleOf(b / 16);
      NibbleOf(b % 16);
      var h := Hex(s);
      assert h[0] == HexDigit(b / 16) && h[1] == HexDigit(b % 16) && h[2..] == Hex(s[1..]);
      assert [s[0]] + s[1..] == s;
      forall i | 0 <= i < |h| ensures !IsDelimiter(h[i]) {
        if i >= 2 { assert h[i] == Hex(s[1..])[i - 2]; }
      }
    }
  }

  lemma IntIsPlain(n: int)
    ensures IsPlain(FormatInt(n))
  {
    var d := Digits(if n < 0 then -n else n);
    DigitsDenote(if n < 0 then -n else n);
    forall c | IsDigit(c) ensures !IsDelimiter(c) && c != 'x' && c != 'N' {}
    var t := FormatInt(n);
    assert t == d || t == "-" + d;
    assert t[0] != 'N' && (|t| > 1 ==> t[1] != 'x');
  }

  lemma BinaryReadsBack(bytes: string, rest: string)
    requires AreBytes(bytes) && rest != "" && IsDelimiter(rest[0])
    ensures ReadLiteral((if bytes == "" then "''" else "0x" + Hex(bytes)) + rest)
         == Some((if bytes == "" then LString("") else LHex(bytes), rest))
  {
    if bytes == "" {
      assert Quoted("") == "''";
      QuotedReadsBack("", rest);
    } else {
      HexReadsBack(bytes);
      var t := "0x" + Hex(bytes);
      assert t[2..] == Hex(bytes);
      PlainReadsBack(t, rest);
    }
  }

  /** A value is read back as its literal, and reading stops at the delimiter after it. */
  lemma ValueReadsBack(v: SqlValue, binary: bool, rest: string)
    requires Writable(v) && rest != "" && IsDelimiter(rest[0])
    ensures ReadLiteral(ValueText(v, binary) + rest) == Some((LiteralOf(v, binary), rest))
  {
    match v
    case Null => PlainReadsBack("NULL", rest);
    case Int(n) => IntIsPlain(n); PlainReadsBack(FormatInt(n), rest);
    case Float(token) => PlainReadsBack(token, rest);
    case Bool(b) => PlainReadsBack(if b then "1" else "0", rest);
    case Printed(text) => QuotedReadsBack(text, rest);
    case Bytes(bytes) => if binary { BinaryReadsBack(bytes, rest); } else { QuotedReadsBack(bytes, rest); }
  }

  // ---------------------------------------------------------------- the builder

  /** A byte buffer that is written to. */
  class Builder {
    var text: string

    constructor ()
      ensures text == ""
    {
      text := "";
    }

    method Write(s: string)
      modifies this
      ensures text == old(text) + s
    {
      text := text + s;
    }

    method Reset()
      modifies this
      ensures text == ""
    {
      text := "";
    }
  }

  /** Writes `s` as a quoted literal, byte by byte. */
  method QuoteSql(s: string) returns (q: string)
    ensures q == Quoted(s)
  {
    var b := new Builder();
    b.Write("'");
    var i := 0;
    while i < |s|
      invariant 0 <= i <= |s| && b.text == "'" + EscapeAll(s[..i])
    {
      var c := s[i];
      if c == NUL { b.Write("\\0"); }
      else if c == '\n' { b.Write("\\n"); }
      else if c == '\r' { b.Write("\\r"); }
      else if c == '\\' { b.Write("\\\\"); }
      else if c == '\'' { b.Write("\\'"); }
      else if c == '"' { b.Write("\\\""); }
      else if c == SUB { b.Write("\\Z"); }
      else { b.Write([c]); }
      assert s[..i + 1][..i] == s[..i];
      i := i + 1;
    }
    assert s[..i] == s;
    b.Write("'");
    q := b.text;
  }

  method WriteSqlValue(sb: Builder, v: SqlValue, binary: bool)
    requires Writable(v)
    modifies sb
    ensures sb.text == old(sb.text) + ValueText(v, binary)
    ensures v == Null ==> sb.text == old(sb.text) + "NULL"
    ensures v.Int? ==> sb.text == old(sb.text) + FormatInt(v.n)
    ensures v.Float? ==> sb.text == old(sb.text) + v.token
    ensures v.Bool? ==> sb.text == old(sb.text) + if v.b then "1" else "0"
    ensures v.Bytes? && binary && v.bytes == "" ==> sb.text == old(sb.text) + "''"
    ensures v.Bytes? && binary && v.bytes != "" ==> sb.text == old(sb.text) + ("0x" + Hex(v.bytes))
    ensures v.Printed? ==> sb.text == old(sb.text) + ("'" + EscapeAll(v.text) + "'")
    ensures v.Bytes? && !binary ==> sb.text == old(sb.text) + ("'" + EscapeAll(v.bytes) + "'")
  {
    match v
    case Null => sb.Write("NULL");
    case Int(n) => sb.Write(FormatInt(n));
    case Float(token) => sb.Write(token);
    case Bool(b) => if b { sb.Write("1"); } else { sb.Write("0"); }
    case Printed(text) =>
      var q := QuoteSql(text);
      sb.Write(q);
    case Bytes(bytes) =>
      if binary {
        if |bytes| == 0 {
          sb.Write("''");
          return;
        }
        sb.Write("0x");
        sb.Write(Hex(bytes));
        return;
      }
      var q := QuoteSql(bytes);
      sb.Write(q);
  }
}
