/** Which "info" value of a torrent file is hashed, for any bytes that admin/torrentfile.go decodes,
    whether or not they are canonically encoded. */
module InfoBytes {
  import opened Seqs
  import opened Decimal
  import opened Bencode

  function Later(info: Option<string>, before: Option<string>): Option<string> {
    if info.Some? then info else before
  }

  /** What is recorded after a value is what is recorded within it, or else what was before. */
  lemma {:induction false} ValueRecords(s: string, info: Option<string>)
    requires ParseValue(s, info).Done?
    ensures ParseValue(s, None).Done? && ParseValue(s, info).info == Later(ParseValue(s, None).info, info)
    decreases |s|, 0
  {
    InfoDoesNotMatter(s, info, None);
    if s[0] == 'l' { ItemsRecord(s[1..], [], info); }
    if s[0] == 'd' { EntriesRecord(s[1..], map[], info); }
  }

  lemma {:induction false} ItemsRecord(s: string, vs: seq<Value>, info: Option<string>)
    requires ParseItems(s, vs, info).Done?
    ensures ParseItems(s, vs, None).Done? && ParseItems(s, vs, info).info == Later(ParseItems(s, vs, None).info, info)
    decreases |s|, 1
  {
    InfoDoesNotMatterItems(s, vs, info, None);
    if s[0] != 'e' {
      var a, b := ParseValue(s, info), ParseValue(s, None);
      ValueRecords(s, info);
      InfoDoesNotMatter(s, info, None);
      InfoDoesNotMatterItems(a.rest, vs + [a.value], a.info, b.info);
      ItemsRecord(a.rest, vs + [a.value], a.info);
      ItemsRecord(a.rest, vs + [a.value], b.info);
    }
  }

  lemma {:induction false} EntriesRecord(s: string, m: map<string, Value>, info: Option<string>)
    requires ParseEntries(s, m, info).Done?
    ensures ParseEntries(s, m, None).Done?
    ensures ParseEntries(s, m, info).info == Later(ParseEntries(s, m, None).info, info)
    decreases |s|, 1
  {
    InfoDoesNotMatterEntries(s, m, info, None);
    if s[0] != 'e' {
      var (key, val) := ParseString(s).value;
      var a, b := ParseValue(val, info), ParseValue(val, None);
      ValueRecords(val, info);
      InfoDoesNotMatter(val, info, None);
      var i := if key == "info" then Some(Span(val, a.rest)) else a.info;
      var j := if key == "info" then Some(Span(val, b.rest)) else b.info;
      EntriesStep(s, m, info, key, val, a.value, a.rest, a.info);
      EntriesStep(s, m, None, key, val, b.value, b.rest, b.info);
      InfoDoesNotMatterEntries(a.rest, m[key := a.value], i, j);
      EntriesRecord(a.rest, m[key := a.value], i);
      EntriesRecord(a.rest, m[key := a.value], j);
    }
  }

  // ---------------------------------------------------------------- the entries of a dict

  /** An entry of a dict: its key, and the bytes of its value. */
  datatype RawEntry = RawEntry(key: string, raw: string)

  /** The entries of the rest of a dict, in the order in which they stand. */
  function RawEntries(s: string): Option<seq<RawEntry>>
    decreases |s|
  {
    if s == "" then None
    else if s[0] == 'e' then Some([])
    else
      var key := ParseString(s);
      if key == None then None
      else
        var a := ParseValue(key.value.1, None);
        if a == Fail then None
        else
          var rest := RawEntries(a.rest);
          if rest == None then None else Some([RawEntry(key.value.0, Span(key.value.1, a.rest))] + rest.value)
  }

  /** The value that some bytes are, and what is recorded within it. */
  function ValueOf(raw: string): Option<Value> {
    match ParseValue(raw, None)
    case Fail => None
    case Done(v, _, _) => Some(v)
  }

  function Within(raw: string): Option<string> {
    match ParseValue(raw, None)
    case Fail => None
    case Done(_, _, info) => info
  }

  function EntryRecords(e: RawEntry, info: Option<string>): Option<string> {
    if e.key == "info" then Some(e.raw) else Later(Within(e.raw), info)
  }

  /** What the entries leave recorded. */
  function Recorded(es: seq<RawEntry>, info: Option<string>): Option<string> {
    if es == [] then info else Recorded(es[1..], EntryRecords(es[0], info))
  }

  lemma RawValue(val: string)
    requires ParseValue(val, None).Done?
    ensures var a := ParseValue(val, None);
            ValueOf(Span(val, a.rest)) == Some(a.value) && Within(Span(val, a.rest)) == a.info
  {
    var a := ParseValue(val, None);
    ValueLocal(val, None, "");
    NoneBefore(Span(val, a.rest));
  }

  lemma {:induction false} EntriesAreRaw(s: string, m: map<string, Value>, info: Option<string>)
    ensures ParseEntries(s, m, info).Done? <==> RawEntries(s).Some?
    ensures ParseEntries(s, m, info).Done? ==> ParseEntries(s, m, info).info == Recorded(RawEntries(s).value, info)
    decreases |s|
  {
    if s != "" && s[0] != 'e' && ParseString(s).Some? {
      var (key, val) := ParseString(s).value;
      InfoDoesNotMatter(val, info, None);
      if ParseValue(val, info).Done? {
        var a, b := ParseValue(val, info), ParseValue(val, None);
        var i := if key == "info" then Some(Span(val, a.rest)) else a.info;
        ValueRecords(val, info);
        RawValue(val);
        EntriesStep(s, m, info, key, val, a.value, a.rest, a.info);
        EntriesAreRaw(a.rest, m[key := a.value], i);
        if RawEntries(a.rest).Some? { HeadFirst(RawEntry(key, Span(val, a.rest)), RawEntries(a.rest).value, info); }
      }
    }
  }

  lemma HeadFirst(e: RawEntry, es: seq<RawEntry>, info: Option<string>)
    ensures Recorded([e] + es, info) == Recorded(es, EntryRecords(e, info))
  {
    Halves([e], es);
  }

  // ---------------------------------------------------------------- the torrent's own info

  /** `k` is the last entry whose key is "info". */
  predicate IsTop(es: seq<RawEntry>, k: nat) {
    k < |es| && es[k].key == "info" && forall j :: k < j < |es| ==> es[j].key != "info"
  }

  lemma {:induction false} RecordedLater(es: seq<RawEntry>, info: Option<string>)
    ensures Recorded(es, info) == Later(Recorded(es, None), info)
  {
    if es != [] {
      RecordedLater(es[1..], EntryRecords(es[0], info));
      RecordedLater(es[1..], EntryRecords(es[0], None));
    }
  }

  lemma {:induction false} TopRecords(es: seq<RawEntry>, k: nat, info: Option<string>)
    requires IsTop(es, k)
    ensures Recorded(es, info) == Later(Recorded(es[k + 1..], None), Some(es[k].raw))
  {
    if k == 0 {
      RecordedLater(es[1..], Some(es[0].raw));
    } else {
      assert es[1..][k..] == es[k + 1..];
      TopRecords(es[1..], k - 1, EntryRecords(es[0], info));
    }
  }

  /** `d` holds under "info" the value of its last entry, or what `m` held if there is none. */
  ghost predicate Keeps(es: seq<RawEntry>, m: map<string, Value>, d: map<string, Value>) {
    && (forall k: nat :: IsTop(es, k) ==> "info" in d && ValueOf(es[k].raw) == Some(d["info"]))
    && (NoTop(es) && "info" in m ==> "info" in d && d["info"] == m["info"])
  }

  lemma KeepsOneMore(e: RawEntry, v: Value, es: seq<RawEntry>, m: map<string, Value>, d: map<string, Value>)
    requires ValueOf(e.raw) == Some(v) && Keeps(es, m[e.key := v], d)
    ensures Keeps([e] + es, m, d)
  {
    TopOfTail(e, es);
    var all := [e] + es;
    forall k: nat | IsTop(all, k) ensures "info" in d && ValueOf(all[k].raw) == Some(d["info"]) {
      if k > 0 { assert all[k] == es[k - 1] && IsTop(es, k - 1); }
    }
  }

  lemma {:induction false} TopIsKept(s: string, m: map<string, Value>, info: Option<string>)
    requires ParseEntries(s, m, info).Done?
    ensures RawEntries(s).Some? && ParseEntries(s, m, info).value.VDict?
    ensures Keeps(RawEntries(s).value, m, ParseEntries(s, m, info).value.m)
    decreases |s|
  {
    if s[0] != 'e' {
      var (key, val) := ParseString(s).value;
      InfoDoesNotMatter(val, info, None);
      var a := ParseValue(val, info);
      RawValue(val);
      EntriesStep(s, m, info, key, val, a.value, a.rest, a.info);
      TopIsKept(a.rest, m[key := a.value], if key == "info" then Some(Span(val, a.rest)) else a.info);
      KeepsOneMore(RawEntry(key, Span(val, a.rest)), a.value, RawEntries(a.rest).value, m,
                   ParseEntries(s, m, info).value.m);
    }
  }

  predicate NoTop(es: seq<RawEntry>) {
    forall j :: 0 <= j < |es| ==> es[j].key != "info"
  }

  lemma TopOfTail(e: RawEntry, es: seq<RawEntry>)
    ensures NoTop([e] + es) <==> e.key != "info" && NoTop(es)
    ensures IsTop([e] + es, 0) <==> e.key == "info" && NoTop(es)
    ensures forall k: nat :: k > 0 && IsTop([e] + es, k) ==> IsTop(es, k - 1)
  {
    var all := [e] + es;
    assert forall j :: 0 <= j < |es| ==> all[j + 1] == es[j];
    assert NoTop(all) ==> NoTop(es) by {
      if NoTop(all) { forall j | 0 <= j < |es| ensures es[j].key != "info" { assert all[j + 1].key != "info"; } }
    }
    assert IsTop(all, 0) ==> NoTop(es) by {
      if IsTop(all, 0) { forall j | 0 <= j < |es| ensures es[j].key != "info" { assert all[j + 1].key != "info"; } }
    }
    forall k: nat | k > 0 && IsTop(all, k) ensures IsTop(es, k - 1) {
      forall j | k - 1 < j < |es| ensures es[j].key != "info" { assert all[j + 1].key != "info"; }
    }
  }

  /** For any bytes that decode to a dict with an "info" key: the value the file list is taken from is
      that of the last such entry, and the bytes that are hashed are that entry's bytes if and only if
      nothing after it records another "info", or what is recorded last are the same bytes. */
  lemma HashedInfoIsTopInfo(s: string, k: nat)
    requires s != "" && s[0] == 'd' && ParseValue(s, None).Done?
    requires RawEntries(s[1..]).Some? ==> IsTop(RawEntries(s[1..]).value, k)
    ensures RawEntries(s[1..]).Some? && ParseValue(s, None).value.VDict?
    ensures var es, r := RawEntries(s[1..]).value, ParseValue(s, None);
            var after := Recorded(es[k + 1..], None);
            && "info" in r.value.m && ValueOf(es[k].raw) == Some(r.value.m["info"])
            && (r.info == Some(es[k].raw) <==> after == None || after == Some(es[k].raw))
  {
    EntriesAreRaw(s[1..], map[], None);
    var es := RawEntries(s[1..]).value;
    TopIsKept(s[1..], map[], None);
    assert IsTop(es, k);
    TopRecords(es, k, None);
  }
}
