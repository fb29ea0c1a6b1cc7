/** The bencode decoder of admin/torrentfile.go, which turns a .torrent file into plain values
    and records the raw bytes of the "info" value for hashing.  The format is the bencoding of
    BEP 3.  Bytes are written as chars. */
module Bencode {
  import opened Seqs
  import opened Decimal

  /** What decoding yields. */
  datatype Value = VInt(n: int) | VStr(s: string) | VList(vs: seq<Value>) | VDict(m: map<string, Value>)

  // ---------------------------------------------------------------- reading

  /** A value read off the front of some bytes: what is left, and the raw bytes of the last
      "info" value to finish so far. */
  datatype Parsed<T> = Fail | Done(value: T, rest: string, info: Option<string>)

  const MAX_INT64 := 0x7fff_ffff_ffff_ffff

  function Find(s: string, c: char): (i: Option<nat>)
    ensures i.Some? ==> i.value < |s| && s[i.value] == c && c !in s[..i.value]
    ensures i == None ==> c !in s
  {
    if s == "" then None
    else if s[0] == c then Some(0)
    else
      var i := Find(s[1..], c);
      if i.Some? then assert s[..i.value + 1] == [s[0]] + s[1..][..i.value]; Some(i.value + 1) else None
  }

  /** A signed 64-bit decimal. */
  function ParseInt64(s: string): Option<int> {
    var n := ParseInt(s);
    if n.Some? && -MAX_INT64 - 1 <= n.value <= MAX_INT64 then n else None
  }

  lemma ParseInt64Is(s: string, n: int)
    ensures ParseInt64(s) == Some(n) <==>
              ParseInt(s) == Some(n) && -9_223_372_036_854_775_808 <= n <= 9_223_372_036_854_775_807
  {}

  /** `rest` is what is left of `s` after something has been read. */
  predicate EndsIn(s: string, rest: string) {
    |rest| < |s| && rest == s[|s| - |rest|..]
  }

  lemma EndsInTwice(s: string, t: string, u: string)
    requires EndsIn(s, t) && EndsIn(t, u)
    ensures EndsIn(s, u)
  {}

  /** i<number>e, from the 'i'. */
  function ParseIntValue(s: string): (r: Option<(int, string)>)
    requires s != ""
    ensures r.Some? ==> |r.value.1| < |s|
  {
    var end := Find(s[1..], 'e');
    if end == None then None
    else
      var n := ParseInt64(s[1..end.value + 1]);
      if n == None then None else Some((n.value, s[end.value + 2..]))
  }

  /** <length>:<bytes>. */
  function ParseString(s: string): (r: Option<(string, string)>)
    ensures r.Some? ==> |r.value.1| < |s|
  {
    var colon := Find(s, ':');
    if colon == None then None
    else
      var n := ParseInt64(s[..colon.value]);
      if n == None || n.value < 0 || colon.value + 1 + n.value > |s| then None
      else Some((s[colon.value + 1..colon.value + 1 + n.value], s[colon.value + 1 + n.value..]))
  }

  function ParseValue(s: string, info: Option<string>): (r: Parsed<Value>)
    ensures r.Done? ==> |r.rest| < |s|
    decreases |s|, 0
  {
    if s == "" then Fail
    else if s[0] == 'i' then
      var n := ParseIntValue(s);
      if n.Some? then Done(VInt(n.value.0), n.value.1, info) else Fail
    else if s[0] == 'l' then ParseItems(s[1..], [], info)
    else if s[0] == 'd' then ParseEntries(s[1..], map[], info)
    else
      var t := ParseString(s);
      if t.Some? then Done(VStr(t.value.0), t.value.1, info) else Fail
  }

  /** The rest of a list of which `vs` has been read. */
  function ParseItems(s: string, vs: seq<Value>, info: Option<string>): (r: Parsed<Value>)
    ensures r.Done? ==> |r.rest| < |s|
    decreases |s|, 1
  {
    if s == "" then Fail
    else if s[0] == 'e' then Done(VList(vs), s[1..], info)
    else match ParseValue(s, info)
      case Fail => Fail
      case Done(v, rest, info') => ParseItems(rest, vs + [v], info')
  }

  /** The raw bytes by which `s` is longer than its end `rest`. */
  function Span(s: string, rest: string): string
    requires |rest| <= |s|
  {
    s[..|s| - |rest|]
  }

  /** The rest of a dict of which `m` has been read. */
  function ParseEntries(s: string, m: map<string, Value>, info: Option<string>): (r: Parsed<Value>)
    ensures r.Done? ==> |r.rest| < |s|
    decreases |s|, 1
  {
    if s == "" then Fail
    else if s[0] == 'e' then Done(VDict(m), s[1..], info)
    else
      var key := ParseString(s);
      if key == None then Fail
      else match ParseValue(key.value.1, info)
        case Fail => Fail
        case Done(v, rest, info') =>
          ParseEntries(rest, m[key.value.0 := v],
                       if key.value.0 == "info" then Some(Span(key.value.1, rest)) else info')
  }

  lemma DropEnds(s: string, k: nat)
    requires 0 < k <= |s|
    ensures EndsIn(s, s[k..])
  {}

  lemma EndsInTail(s: string, rest: string)
    requires s != "" && EndsIn(s[1..], rest)
    ensures EndsIn(s, rest)
  {
    DropEnds(s, 1);
    EndsInTwice(s, s[1..], rest);
  }

  lemma IntEndsIn(s: string)
    requires s != "" && ParseIntValue(s).Some?
    ensures EndsIn(s, ParseIntValue(s).value.1)
  {
    DropEnds(s, Find(s[1..], 'e').value + 2);
  }

  lemma StringEndsIn(s: string)
    requires ParseString(s).Some?
    ensures EndsIn(s, ParseString(s).value.1)
  {
    var k := Find(s, ':').value;
    DropEnds(s, k + 1 + ParseInt64(s[..k]).value);
  }

  /** A successful decode strictly advances and stays in bounds. */
  lemma {:induction false} ValueEndsIn(s: string, info: Option<string>)
    ensures ParseValue(s, info).Done? ==> EndsIn(s, ParseValue(s, info).rest)
    decreases |s|, 0
  {
    if ParseValue(s, info).Done? {
      if s[0] == 'i' {
        IntEndsIn(s);
      } else if s[0] == 'l' {
        ItemsEndIn(s[1..], [], info);
        EndsInTail(s, ParseItems(s[1..], [], info).rest);
      } else if s[0] == 'd' {
        EntriesEndIn(s[1..], map[], info);
        EndsInTail(s, ParseEntries(s[1..], map[], info).rest);
      } else {
        StringEndsIn(s);
      }
    }
  }

  lemma ItemsStep(s: string, vs: seq<Value>, info: Option<string>, v: Value, rest: string, info': Option<string>)
    requires s != "" && s[0] != 'e' && ParseValue(s, info) == Done(v, rest, info')
    ensures ParseItems(s, vs, info) == ParseItems(rest, vs + [v], info')
  {}

  lemma EntriesStep(s: string, m: map<string, Value>, info: Option<string>, key: string, val: string,
                    v: Value, rest: string, info': Option<string>)
    requires s != "" && s[0] != 'e' && ParseString(s) == Some((key, val))
    requires ParseValue(val, info) == Done(v, rest, info')
    ensures ParseEntries(s, m, info)
         == ParseEntries(rest, m[key := v], if key == "info" then Some(Span(val, rest)) else info')
  {}

  lemma {:induction false} ItemsEndIn(s: string, vs: seq<Value>, info: Option<string>)
    ensures ParseItems(s, vs, info).Done? ==> EndsIn(s, ParseItems(s, vs, info).rest)
    decreases |s|, 1
  {
    if s != "" && s[0] == 'e' { DropEnds(s, 1); }
    if s != "" && s[0] != 'e' && ParseValue(s, info).Done? {
      var a := ParseValue(s, info);
      ValueEndsIn(s, info);
      ItemsStep(s, vs, info, a.value, a.rest, a.info);
      ItemsEndIn(a.rest, vs + [a.value], a.info);
      var r := ParseItems(a.rest, vs + [a.value], a.info);
      if r.Done? { EndsInTwice(s, a.rest, r.rest); }
    }
  }

  lemma {:induction false} EntriesEndIn(s: string, m: map<string, Value>, info: Option<string>)
    ensures ParseEntries(s, m, info).Done? ==> EndsIn(s, ParseEntries(s, m, info).rest)
    decreases |s|, 1
  {
    if s != "" && s[0] == 'e' { DropEnds(s, 1); }
    if s != "" && s[0] != 'e' && ParseString(s).Some? && ParseValue(ParseString(s).value.1, info).Done? {
      var (key, val) := ParseString(s).value;
      var a := ParseValue(val, info);
      var info' := if key == "info" then Some(Span(val, a.rest)) else a.info;
      StringEndsIn(s);
      ValueEndsIn(val, info);
      EndsInTwice(s, val, a.rest);
      EntriesStep(s, m, info, key, val, a.value, a.rest, a.info);
      EntriesEndIn(a.rest, m[key := a.value], info');
      var r := ParseEntries(a.rest, m[key := a.value], info');
      if r.Done? { EndsInTwice(s, a.rest, r.rest); }
    }
  }

  // ---------------------------------------------------------------- writing

  /** What can be encoded.  A dict lists its entries in the order they are written. */
  datatype Doc = DInt(n: int) | DStr(s: string) | DList(ds: seq<Doc>) | DDict(es: seq<Entry>)
  datatype Entry = Entry(key: string, val: Doc)

  function EncodeString(s: string): string {
    Digits(|s|) + ":" + s
  }

  function Encode(d: Doc): string {
    match d
    case DInt(n) => "i" + FormatInt(n) + "e"
    case DStr(s) => EncodeString(s)
    case DList(ds) => "l" + EncodeAll(ds) + "e"
    case DDict(es) => "d" + EncodeEntries(es) + "e"
  }

  function EncodeAll(ds: seq<Doc>): string {
    if ds == [] then "" else Encode(ds[0]) + EncodeAll(ds[1..])
  }

  function EncodeEntries(es: seq<Entry>): string {
    if es == [] then "" else EncodeString(es[0].key) + Encode(es[0].val) + EncodeEntries(es[1..])
  }

  /** Integers fit in 64 bits, and so do the lengths of strings. */
  predicate Encodable(d: Doc) {
    match d
    case DInt(n) => -MAX_INT64 - 1 <= n <= MAX_INT64
    case DStr(s) => |s| <= MAX_INT64
    case DList(ds) => forall x :: x in ds ==> Encodable(x)
    case DDict(es) => forall e :: e in es ==> |e.key| <= MAX_INT64 && Encodable(e.val)
  }

  /** The value a document stands for: of entries with the same key, the last one counts. */
  function Meaning(d: Doc): Value {
    match d
    case DInt(n) => VInt(n)
    case DStr(s) => VStr(s)
    case DList(ds) => VList(MeaningAll(ds))
    case DDict(es) => VDict(MeaningEntries(es, map[]))
  }

  function MeaningAll(ds: seq<Doc>): seq<Value> {
    if ds == [] then [] else [Meaning(ds[0])] + MeaningAll(ds[1..])
  }

  function MeaningEntries(es: seq<Entry>, m: map<string, Value>): map<string, Value> {
    if es == [] then m else MeaningEntries(es[1..], m[es[0].key := Meaning(es[0].val)])
  }

  /** A list stands for its values, one for one. */
  lemma {:induction false} MeaningAt(ds: seq<Doc>, i: nat)
    requires i < |ds|
    ensures |MeaningAll(ds)| == |ds| && MeaningAll(ds)[i] == Meaning(ds[i])
  {
    if |ds| > 1 { MeaningAt(ds[1..], if i == 0 then 0 else i - 1); }
  }

  predicate HasKey(es: seq<Entry>, key: string) {
    exists i :: 0 <= i < |es| && es[i].key == key
  }

  /** A dict holds just the keys of its entries, and of those with one key the last one's value. */
  lemma {:induction false} MeaningOfKey(es: seq<Entry>, m: map<string, Value>, key: string)
    ensures key in MeaningEntries(es, m) <==> key in m || HasKey(es, key)
    ensures key in m && !HasKey(es, key) ==> MeaningEntries(es, m)[key] == m[key]
    ensures forall i :: 0 <= i < |es| && es[i].key == key && !HasKey(es[i + 1..], key) ==>
              MeaningEntries(es, m)[key] == Meaning(es[i].val)
  {
    if es != [] {
      var rest, m' := es[1..], m[es[0].key := Meaning(es[0].val)];
      MeaningOfKey(rest, m', key);
      if HasKey(es, key) && es[0].key != key {
        var i :| 0 <= i < |es| && es[i].key == key;
        assert rest[i - 1].key == key;
      }
      if HasKey(rest, key) {
        var i :| 0 <= i < |rest| && rest[i].key == key;
        assert es[i + 1].key == key;
      }
      forall i | 0 <= i < |es| && es[i].key == key && !HasKey(es[i + 1..], key)
        ensures MeaningEntries(es, m)[key] == Meaning(es[i].val)
      {
        if i > 0 { assert rest[i - 1] == es[i] && rest[i..] == es[i + 1..]; }
      }
    }
  }

  /** The encoding of the last "info" value to be completed within a document, or else `info`. */
  function LastInfo(d: Doc, info: Option<string>): Option<string> {
    match d
    case DInt(_) => info
    case DStr(_) => info
    case DList(ds) => LastInfoAll(ds, info)
    case DDict(es) => LastInfoEntries(es, info)
  }

  function LastInfoAll(ds: seq<Doc>, info: Option<string>): Option<string> {
    if ds == [] then info else LastInfoAll(ds[1..], LastInfo(ds[0], info))
  }

  function LastInfoEntries(es: seq<Entry>, info: Option<string>): Option<string> {
    if es == [] then info
    else
      var inner := LastInfo(es[0].val, info);
      LastInfoEntries(es[1..], if es[0].key == "info" then Some(Encode(es[0].val)) else inner)
  }

  // ---------------------------------------------------------------- round trip

  lemma {:induction false} FindAfter(a: string, c: char, b: string)
    requires c !in a
    ensures Find(a + [c] + b, c) == Some(|a|)
  {
    if a == "" {
      assert a + [c] + b == [c] + b;
    } else {
      assert (a + [c] + b)[1..] == a[1..] + [c] + b;
      FindAfter(a[1..], c, b);
    }
  }

  lemma ParseEncodeString(s: string, post: string)
    requires |s| <= MAX_INT64
    ensures EncodeString(s) != "" && IsDigit(EncodeString(s)[0])
    ensures ParseString(EncodeString(s) + post) == Some((s, post))
  {
    var len := Digits(|s|);
    DigitsDenote(|s|);
    ParseFormatInt(|s|);
    var all := EncodeString(s) + post;
    assert all == len + [':'] + (s + post);
    FindAfter(len, ':', s + post);
    assert all[..|len|] == len;
    assert all[|len| + 1..] == s + post;
    assert all[|len| + 1..|len| + 1 + |s|] == s;
    assert all[|len| + 1 + |s|..] == post;
  }

  lemma NoLetterIn(n: int, c: char)
    requires !IsDigit(c) && c != '-'
    ensures c !in FormatInt(n)
  {
    DigitsDenote(if n < 0 then -n else n);
  }

  /** A number between its first character and an 'e', and what follows. */
  lemma IntOf(c: char, body: string, post: string)
    requires 'e' !in body && ParseInt64(body).Some?
    ensures ParseIntValue([c] + body + ['e'] + post) == Some((ParseInt64(body).value, post))
  {
    var s := [c] + body + ['e'] + post;
    Assoc([c], body, ['e']);
    Assoc([c], body + ['e'], post);
    Halves([c], body + ['e'] + post);
    FindAfter(body, 'e', post);
    Assoc(body, ['e'], post);
    Halves(body, ['e'] + post);
    SliceOf(s, 1, |body|);
    Halves([c] + body + ['e'], post);
  }

  lemma ParseEncodeInt(n: int, post: string)
    requires -MAX_INT64 - 1 <= n <= MAX_INT64
    ensures ParseIntValue("i" + FormatInt(n) + "e" + post) == Some((n, post))
  {
    ParseFormatInt(n);
    NoLetterIn(n, 'e');
    IntOf('i', FormatInt(n), post);
  }

  lemma EncodeStarts(d: Doc)
    requires Encodable(d)
    ensures Encode(d) != "" && Encode(d)[0] != 'e'
    ensures Encode(d)[0] == 'i' <==> d.DInt?
    ensures Encode(d)[0] == 'l' <==> d.DList?
    ensures Encode(d)[0] == 'd' <==> d.DDict?
  {
    if d.DStr? { ParseEncodeString(d.s, ""); }
  }

  lemma ListStarts(x: string, info: Option<string>)
    ensures ParseValue("l" + x, info) == ParseItems(x, [], info)
  {
    Halves("l", x);
  }

  lemma DictStarts(x: string, info: Option<string>)
    ensures ParseValue("d" + x, info) == ParseEntries(x, map[], info)
  {
    Halves("d", x);
  }

  lemma Bracketed(open: string, x: string, post: string)
    ensures open + x + "e" + post == open + (x + ("e" + post))
  {
    Assoc(open, x, "e");
    Assoc(open, x + "e", post);
    Assoc(x, "e", post);
  }

  /** Decoding an encoded document gives what it stands for, stops exactly where it ends
      whatever follows, and leaves the raw bytes of its last "info" value. */
  lemma {:induction false} DecodeEncode(d: Doc, post: string, info: Option<string>)
    requires Encodable(d)
    ensures ParseValue(Encode(d) + post, info) == Done(Meaning(d), post, LastInfo(d, info))
    decreases d, 1
  {
    EncodeStarts(d);
    match d
    case DInt(n) =>
      ParseEncodeInt(n, post);
    case DStr(t) =>
      ParseEncodeString(t, post);
    case DList(ds) =>
      Bracketed("l", EncodeAll(ds), post);
      ListStarts(EncodeAll(ds) + ("e" + post), info);
      DecodeItems(ds, [], post, info);
      NoneBefore(MeaningAll(ds));
    case DDict(es) =>
      Bracketed("d", EncodeEntries(es), post);
      DictStarts(EncodeEntries(es) + ("e" + post), info);
      DecodeEntries(es, map[], post, info);
  }

  lemma {:induction false} DecodeItems(ds: seq<Doc>, vs: seq<Value>, post: string, info: Option<string>)
    requires forall x :: x in ds ==> Encodable(x)
    ensures ParseItems(EncodeAll(ds) + ("e" + post), vs, info)
         == Done(VList(vs + MeaningAll(ds)), post, LastInfoAll(ds, info))
    decreases ds, 0
  {
    if ds == [] {
      DictEnds(post);
      assert vs + [] == vs;
    } else {
      var rest := EncodeAll(ds[1..]) + ("e" + post);
      Assoc(Encode(ds[0]), EncodeAll(ds[1..]), "e" + post);
      EncodeStarts(ds[0]);
      DecodeEncode(ds[0], rest, info);
      ItemsStep(Encode(ds[0]) + rest, vs, info, Meaning(ds[0]), rest, LastInfo(ds[0], info));
      DecodeItems(ds[1..], vs + [Meaning(ds[0])], post, LastInfo(ds[0], info));
      assert vs + [Meaning(ds[0])] + MeaningAll(ds[1..]) == vs + MeaningAll(ds);
    }
  }

  lemma DictEnds(post: string)
    ensures "" + ("e" + post) == "e" + post && ("e" + post)[1..] == post
  {}

  lemma {:induction false} DecodeEntries(es: seq<Entry>, m: map<string, Value>, post: string, info: Option<string>)
    requires forall e :: e in es ==> |e.key| <= MAX_INT64 && Encodable(e.val)
    ensures ParseEntries(EncodeEntries(es) + ("e" + post), m, info) ==
              Done(VDict(MeaningEntries(es, m)), post, LastInfoEntries(es, info))
    decreases es, 0
  {
    if es == [] {
      DictEnds(post);
    } else {
      var e := es[0];
      var rest := EncodeEntries(es[1..]) + ("e" + post);
      var val := Encode(e.val) + rest;
      var s := EncodeEntries(es) + ("e" + post);
      Assoc(EncodeString(e.key) + Encode(e.val), EncodeEntries(es[1..]), "e" + post);
      Assoc(EncodeString(e.key), Encode(e.val), rest);
      ParseEncodeString(e.key, val);
      DecodeEncode(e.val, rest, info);
      SpanOf(Encode(e.val), rest);
      EntriesStep(s, m, info, e.key, val, Meaning(e.val), rest, LastInfo(e.val, info));
      DecodeEntries(es[1..], m[e.key := Meaning(e.val)], post,
                    if e.key == "info" then Some(Encode(e.val)) else LastInfo(e.val, info));
    }
  }

  lemma SpanOf(a: string, b: string)
    ensures Span(a + b, b) == a
  {}

  // ---------------------------------------------------------------- reading any bytes at all

  lemma FindLocal(s: string, c: char, post: string)
    requires Find(s, c).Some?
    ensures var k := Find(s, c).value; Find(s[..k + 1] + post, c) == Some(k)
  {
    var k := Find(s, c).value;
    FindAfter(s[..k], c, post);
    assert s[..k + 1] + post == s[..k] + [c] + post;
  }

  lemma IntParts(s: string) returns (body: string)
    requires s != "" && ParseIntValue(s).Some?
    ensures s == [s[0]] + body + ['e'] + ParseIntValue(s).value.1
    ensures 'e' !in body && ParseInt64(body) == Some(ParseIntValue(s).value.0)
  {
    var k := Find(s[1..], 'e').value;
    body := s[1..][..k];
    SliceOf(s, 1, k);
    SplitAt(s, 1);
    TakeMore(s[1..], k);
    SplitAt(s[1..], k + 1);
    SliceOf(s, 1, k + 1);
    Assoc([s[0]], body, ['e']);
    Assoc([s[0]], body + ['e'], s[k + 2..]);
  }

  lemma IntLocal(s: string, post: string)
    requires s != "" && ParseIntValue(s).Some?
    ensures var (n, rest) := ParseIntValue(s).value;
            Span(s, rest) != "" && Span(s, rest)[0] == s[0] && ParseIntValue(Span(s, rest) + post) == Some((n, post))
  {
    var body := IntParts(s);
    SpanOf([s[0]] + body + ['e'], ParseIntValue(s).value.1);
    IntOf(s[0], body, post);
  }

  /** A length, a colon, that many bytes, and what follows. */
  lemma StringOf(len: string, v: string, post: string)
    requires ':' !in len && ParseInt64(len) == Some(|v|)
    ensures ParseString(len + [':'] + v + post) == Some((v, post))
  {
    var s := len + [':'] + (v + post);
    Assoc(len + [':'], v, post);
    FindAfter(len, ':', v + post);
    Assoc(len, [':'], v + post);
    Halves(len, [':'] + (v + post));
    Halves(len + [':'], v + post);
    Halves(v, post);
    assert s[|len| + 1..] == v + post;
    SliceOf(s, |len| + 1, |v|);
  }

  lemma SliceOf(s: string, i: nat, n: nat)
    requires i + n <= |s|
    ensures s[i..i + n] == s[i..][..n] && s[i + n..] == s[i..][n..]
  {}

  lemma StringParts(s: string) returns (len: string)
    requires ParseString(s).Some?
    ensures var (v, rest) := ParseString(s).value;
            s == len + [':'] + v + rest && ':' !in len && ParseInt64(len) == Some(|v|)
  {
    var k := Find(s, ':').value;
    var n := ParseInt64(s[..k]).value;
    len := s[..k];
    TakeMore(s, k);
    SliceOf(s, k + 1, n);
    SplitAt(s[k + 1..], n);
    SplitAt(s, k + 1);
    Assoc(len + [':'], s[k + 1..][..n], s[k + 1..][n..]);
  }

  lemma StringLocal(s: string, post: string)
    requires ParseString(s).Some?
    ensures var (v, rest) := ParseString(s).value;
            Span(s, rest) != "" && Span(s, rest)[0] == s[0] && ParseString(Span(s, rest) + post) == Some((v, post))
  {
    var (v, rest) := ParseString(s).value;
    var len := StringParts(s);
    SpanOf(len + [':'] + v, rest);
    StringOf(len, v, post);
  }

  lemma SpanTwice(s: string, t: string, u: string, post: string)
    requires EndsIn(s, t) && EndsIn(t, u)
    ensures Span(s, t) + (Span(t, u) + post) == Span(s, u) + post
    ensures Span(s, t) != "" && Span(s, t)[0] == s[0] && (Span(s, u) + post)[0] == s[0]
  {}

  /** Decoding looks at nothing beyond the bytes it consumes: whatever follows them, it gives
      the same value and stops at the same place. */
  lemma {:induction false} ValueLocal(s: string, info: Option<string>, post: string)
    requires ParseValue(s, info).Done?
    ensures var r := ParseValue(s, info); ParseValue(Span(s, r.rest) + post, info) == Done(r.value, post, r.info)
    decreases |s|, 0
  {
    if s[0] == 'i' {
      IntLocal(s, post);
    } else if s[0] == 'l' {
      ItemsLocal(s[1..], [], info, post);
      ItemsEndIn(s[1..], [], info);
      HeadOfSpan(s, ParseItems(s[1..], [], info).rest, post);
    } else if s[0] == 'd' {
      EntriesLocal(s[1..], map[], info, post);
      EntriesEndIn(s[1..], map[], info);
      HeadOfSpan(s, ParseEntries(s[1..], map[], info).rest, post);
    } else {
      StringLocal(s, post);
    }
  }

  lemma HeadOfSpan(s: string, rest: string, post: string)
    requires s != "" && EndsIn(s[1..], rest)
    ensures EndsIn(s, rest)
    ensures var t := Span(s, rest) + post; t != "" && t[0] == s[0] && t[1..] == Span(s[1..], rest) + post
  {}

  lemma {:induction false} ItemsLocal(s: string, vs: seq<Value>, info: Option<string>, post: string)
    requires ParseItems(s, vs, info).Done?
    ensures var r := ParseItems(s, vs, info);
            ParseItems(Span(s, r.rest) + post, vs, info) == Done(r.value, post, r.info)
    decreases |s|, 1
  {
    var r := ParseItems(s, vs, info);
    if s[0] == 'e' {
      assert Span(s, r.rest) + post == "e" + post && ("e" + post)[1..] == post;
    } else {
      var a := ParseValue(s, info);
      ItemsLocal(a.rest, vs + [a.value], a.info, post);
      ValueEndsIn(s, info);
      ItemsEndIn(a.rest, vs + [a.value], a.info);
      var post' := Span(a.rest, r.rest) + post;
      ValueLocal(s, info, post');
      SpanTwice(s, a.rest, r.rest, post);
      ItemsStep(Span(s, r.rest) + post, vs, info, a.value, post', a.info);
    }
  }

  lemma {:induction false} EntriesLocal(s: string, m: map<string, Value>, info: Option<string>, post: string)
    requires ParseEntries(s, m, info).Done?
    ensures var r := ParseEntries(s, m, info);
            ParseEntries(Span(s, r.rest) + post, m, info) == Done(r.value, post, r.info)
    decreases |s|, 1
  {
    var r := ParseEntries(s, m, info);
    if s[0] == 'e' {
      assert Span(s, r.rest) + post == "e" + post && ("e" + post)[1..] == post;
    } else {
      var (key, val) := ParseString(s).value;
      var a := ParseValue(val, info);
      var info' := if key == "info" then Some(Span(val, a.rest)) else a.info;
      EntriesLocal(a.rest, m[key := a.value], info', post);
      StringEndsIn(s);
      ValueEndsIn(val, info);
      EntriesEndIn(a.rest, m[key := a.value], info');
      var post' := Span(a.rest, r.rest) + post;
      ValueLocal(val, info, post');
      SpanTwice(val, a.rest, r.rest, post);
      StringLocal(s, Span(val, r.rest) + post);
      EndsInTwice(val, a.rest, r.rest);
      SpanTwice(s, val, r.rest, post);
      SpanOf(Span(val, a.rest), post');
      EntriesStep(Span(s, r.rest) + post, m, info, key, Span(val, r.rest) + post, a.value, post', a.info);
    }
  }

  /** What has been recorded so far affects neither the value read nor where it ends. */
  lemma {:induction false} InfoDoesNotMatter(s: string, i: Option<string>, j: Option<string>)
    ensures ParseValue(s, i).Done? <==> ParseValue(s, j).Done?
    ensures ParseValue(s, i).Done? ==>
              ParseValue(s, i).value == ParseValue(s, j).value && ParseValue(s, i).rest == ParseValue(s, j).rest
    decreases |s|, 0
  {
    if s != "" && s[0] == 'l' { InfoDoesNotMatterItems(s[1..], [], i, j); }
    if s != "" && s[0] == 'd' { InfoDoesNotMatterEntries(s[1..], map[], i, j); }
  }

  lemma {:induction false} InfoDoesNotMatterItems(s: string, vs: seq<Value>, i: Option<string>, j: Option<string>)
    ensures ParseItems(s, vs, i).Done? <==> ParseItems(s, vs, j).Done?
    ensures ParseItems(s, vs, i).Done? ==>
              && ParseItems(s, vs, i).value == ParseItems(s, vs, j).value
              && ParseItems(s, vs, i).rest == ParseItems(s, vs, j).rest
    decreases |s|, 1
  {
    if s != "" && s[0] != 'e' {
      InfoDoesNotMatter(s, i, j);
      var a, b := ParseValue(s, i), ParseValue(s, j);
      if a.Done? { InfoDoesNotMatterItems(a.rest, vs + [a.value], a.info, b.info); }
    }
  }

  lemma {:induction false} InfoDoesNotMatterEntries(s: string, m: map<string, Value>,
                                                    i: Option<string>, j: Option<string>)
    ensures ParseEntries(s, m, i).Done? <==> ParseEntries(s, m, j).Done?
    ensures ParseEntries(s, m, i).Done? ==>
              && ParseEntries(s, m, i).value == ParseEntries(s, m, j).value
              && ParseEntries(s, m, i).rest == ParseEntries(s, m, j).rest
    decreases |s|, 1
  {
    if s != "" && s[0] != 'e' && ParseString(s).Some? {
      var (key, val) := ParseString(s).value;
      InfoDoesNotMatter(val, i, j);
      var a, b := ParseValue(val, i), ParseValue(val, j);
      if a.Done? {
        var i' := if key == "info" then Some(Span(val, a.rest)) else a.info;
        var j' := if key == "info" then Some(Span(val, b.rest)) else b.info;
        EntriesStep(s, m, i, key, val, a.value, a.rest, a.info);
        EntriesStep(s, m, j, key, val, b.value, b.rest, b.info);
        InfoDoesNotMatterEntries(a.rest, m[key := a.value], i', j');
      }
    }
  }

  /** `raw` is one whole encoded value. */
  predicate IsValue(raw: string) {
    ParseValue(raw, None).Done? && ParseValue(raw, None).rest == ""
  }

  ghost predicate HoldsValue(s: string, raw: string) {
    IsValue(raw) && exists a, b :: s == a + raw + b
  }

  /** The information after reading from `s` is what it was, or one whole value within `s`. */
  ghost predicate InfoOk(s: string, before: Option<string>, after: Option<string>) {
    after == before || (after.Some? && HoldsValue(s, after.value))
  }

  lemma HoldsInPrefix(s: string, t: string, raw: string)
    requires EndsIn(s, t) && HoldsValue(t, raw)
    ensures HoldsValue(s, raw)
  {
    var a, b :| t == a + raw + b;
    SpanAndRest(s, t);
    Assoc(a, raw, b);
    Assoc(Span(s, t), a, raw + b);
    Assoc(Span(s, t) + a, raw, b);
  }

  lemma SpanHolds(s: string, info: Option<string>)
    requires ParseValue(s, info).Done?
    ensures HoldsValue(s, Span(s, ParseValue(s, info).rest))
  {
    var r := ParseValue(s, info);
    var raw := Span(s, r.rest);
    InfoDoesNotMatter(s, info, None);
    ValueLocal(s, None, "");
    ValueEndsIn(s, info);
    NoneBefore(raw);
    SpanAndRest(s, r.rest);
    HoldsAtStart(raw, r.rest);
  }

  lemma SpanAndRest(s: string, rest: string)
    requires EndsIn(s, rest)
    ensures Span(s, rest) + rest == s
  {
    SplitAt(s, |s| - |rest|);
  }

  lemma HoldsAtStart(raw: string, rest: string)
    requires IsValue(raw)
    ensures HoldsValue(raw + rest, raw)
  {
    assert "" + raw + rest == raw + rest;
  }

  /** For any bytes whatever: the recorded bytes are one whole value of the input, never
      re-encoded, cut short or run on. */
  lemma {:induction false} InfoIsAWholeValue(s: string, info: Option<string>)
    ensures ParseValue(s, info).Done? ==> InfoOk(s, info, ParseValue(s, info).info)
    decreases |s|, 0
  {
    if s != "" && s[0] == 'l' {
      InfoOfItems(s[1..], [], info);
      InfoFromEnd(s, s[1..], info, ParseItems(s[1..], [], info));
    }
    if s != "" && s[0] == 'd' {
      InfoOfEntries(s[1..], map[], info);
      InfoFromEnd(s, s[1..], info, ParseEntries(s[1..], map[], info));
    }
  }

  lemma InfoFromEnd(s: string, t: string, info: Option<string>, r: Parsed<Value>)
    requires EndsIn(s, t) && (r.Done? ==> InfoOk(t, info, r.info))
    ensures r.Done? ==> InfoOk(s, info, r.info)
  {
    if r.Done? && r.info != info { HoldsInPrefix(s, t, r.info.value); }
  }

  lemma {:induction false} InfoOfItems(s: string, vs: seq<Value>, info: Option<string>)
    ensures ParseItems(s, vs, info).Done? ==> InfoOk(s, info, ParseItems(s, vs, info).info)
    decreases |s|, 1
  {
    if s != "" && s[0] != 'e' {
      var a := ParseValue(s, info);
      InfoIsAWholeValue(s, info);
      ValueEndsIn(s, info);
      if a.Done? {
        InfoOfItems(a.rest, vs + [a.value], a.info);
        InfoFromEnd(s, a.rest, a.info, ParseItems(a.rest, vs + [a.value], a.info));
      }
    }
  }

  lemma InfoOfEntry(s: string, key: string, val: string, info: Option<string>)
    requires ParseString(s) == Some((key, val)) && ParseValue(val, info).Done?
    requires InfoOk(val, info, ParseValue(val, info).info)
    ensures var a := ParseValue(val, info); InfoOk(s, info, if key == "info" then Some(Span(val, a.rest)) else a.info)
  {
    StringEndsIn(s);
    InfoFromEnd(s, val, info, ParseValue(val, info));
    SpanHolds(val, info);
    HoldsInPrefix(s, val, Span(val, ParseValue(val, info).rest));
  }

  lemma {:induction false} InfoOfEntries(s: string, m: map<string, Value>, info: Option<string>)
    ensures ParseEntries(s, m, info).Done? ==> InfoOk(s, info, ParseEntries(s, m, info).info)
    decreases |s|, 1
  {
    if s != "" && s[0] != 'e' && ParseString(s).Some? {
      var (key, val) := ParseString(s).value;
      var a := ParseValue(val, info);
      InfoIsAWholeValue(val, info);
      if a.Done? {
        var info' := if key == "info" then Some(Span(val, a.rest)) else a.info;
        EntriesStep(s, m, info, key, val, a.value, a.rest, a.info);
        InfoOfEntry(s, key, val, info);
        StringEndsIn(s);
        ValueEndsIn(val, info);
        EndsInTwice(s, val, a.rest);
        InfoOfEntries(a.rest, m[key := a.value], info');
        InfoFromEnd(s, a.rest, info', ParseEntries(a.rest, m[key := a.value], info'));
      }
    }
  }
}
