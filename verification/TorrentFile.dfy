/** parseTorrentFile of admin/torrentfile.go: the decoder as it walks its buffer, and what is
    made of the values it yields. */
module TorrentFile {
  import opened Seqs
  import opened Decimal
  import opened Bencode

  // ---------------------------------------------------------------- which info is hashed

  lemma {:induction false} LastInfoOr(d: Doc, info: Option<string>)
    ensures LastInfo(d, info) == if LastInfo(d, None).Some? then LastInfo(d, None) else info
    decreases d, 1
  {
    match d
    case DInt(_) =>
    case DStr(_) =>
    case DList(ds) => LastInfoAllOr(ds, info);
    case DDict(es) => LastInfoEntriesOr(es, info);
  }

  lemma {:induction false} LastInfoAllOr(ds: seq<Doc>, info: Option<string>)
    ensures LastInfoAll(ds, info) == if LastInfoAll(ds, None).Some? then LastInfoAll(ds, None) else info
    decreases ds, 0
  {
    if ds != [] {
      LastInfoOr(ds[0], info);
      LastInfoAllOr(ds[1..], LastInfo(ds[0], info));
      LastInfoAllOr(ds[1..], LastInfo(ds[0], None));
    }
  }

  lemma {:induction false} LastInfoEntriesOr(es: seq<Entry>, info: Option<string>)
    ensures LastInfoEntries(es, info) == if LastInfoEntries(es, None).Some? then LastInfoEntries(es, None) else info
    decreases es, 0
  {
    if es != [] {
      var e := es[0];
      LastInfoOr(e.val, info);
      LastInfoEntriesOr(es[1..], if e.key == "info" then Some(Encode(e.val)) else LastInfo(e.val, info));
      LastInfoEntriesOr(es[1..], if e.key == "info" then Some(Encode(e.val)) else LastInfo(e.val, None));
    }
  }

  /** Some dict within these entries has an "info" key. */
  predicate MentionsInfo(es: seq<Entry>) {
    exists e :: e in es && (e.key == "info" || WithinDoc(e.val))
  }

  predicate WithinDoc(d: Doc) {
    match d
    case DInt(_) => false
    case DStr(_) => false
    case DList(ds) => exists x :: x in ds && WithinDoc(x)
    case DDict(es) => exists e :: e in es && (e.key == "info" || WithinDoc(e.val))
  }

  lemma {:induction false} MentionedIsRecorded(es: seq<Entry>)
    ensures MentionsInfo(es) <==> LastInfoEntries(es, None).Some?
    decreases es, 0
  {
    if es != [] {
      var e := es[0];
      WithinIsRecorded(e.val);
      MentionedIsRecorded(es[1..]);
      LastInfoEntriesOr(es[1..], if e.key == "info" then Some(Encode(e.val)) else LastInfo(e.val, None));
      assert es == [e] + es[1..];
      if x :| x in es[1..] && (x.key == "info" || WithinDoc(x.val)) { assert x in es; }
    }
  }

  lemma {:induction false} WithinIsRecorded(d: Doc)
    ensures WithinDoc(d) <==> LastInfo(d, None).Some?
    decreases d, 1
  {
    match d
    case DInt(_) =>
    case DStr(_) =>
    case DList(ds) => WithinAllIsRecorded(ds);
    case DDict(es) => MentionedIsRecorded(es);
  }

  lemma {:induction false} WithinAllIsRecorded(ds: seq<Doc>)
    ensures (exists x :: x in ds && WithinDoc(x)) <==> LastInfoAll(ds, None).Some?
    decreases ds, 0
  {
    if ds != [] {
      WithinIsRecorded(ds[0]);
      WithinAllIsRecorded(ds[1..]);
      LastInfoAllOr(ds[1..], LastInfo(ds[0], None));
      assert ds == [ds[0]] + ds[1..];
      if x :| x in ds[1..] && WithinDoc(x) { assert x in ds; }
    }
  }

  /** `k` is the last entry whose key is "info". */
  predicate IsTopInfo(es: seq<Entry>, k: nat) {
    k < |es| && es[k].key == "info" && forall j :: k < j < |es| ==> es[j].key != "info"
  }

  lemma {:induction false} TopInfoEntries(es: seq<Entry>, k: nat, m: map<string, Value>, info: Option<string>)
    requires IsTopInfo(es, k)
    ensures var after := LastInfoEntries(es[k + 1..], None);
            LastInfoEntries(es, info) == if after.Some? then after else Some(Encode(es[k].val))
    ensures "info" in MeaningEntries(es, m) && MeaningEntries(es, m)["info"] == Meaning(es[k].val)
  {
    var e := es[0];
    if k == 0 {
      LastInfoEntriesOr(es[1..], Some(Encode(e.val)));
      OtherKeysKeep(es[1..], m["info" := Meaning(e.val)]);
    } else {
      assert es[1..][k..] == es[k + 1..];
      TopInfoEntries(es[1..], k - 1, m[e.key := Meaning(e.val)],
                     if e.key == "info" then Some(Encode(e.val)) else LastInfo(e.val, info));
    }
  }

  lemma {:induction false} OtherKeysKeep(es: seq<Entry>, m: map<string, Value>)
    requires "info" in m && forall j :: 0 <= j < |es| ==> es[j].key != "info"
    ensures "info" in MeaningEntries(es, m) && MeaningEntries(es, m)["info"] == m["info"]
  {
    if es != [] {
      OtherKeysKeep(es[1..], m[es[0].key := Meaning(es[0].val)]);
    }
  }

  /** The bytes that are hashed are those of the torrent's own info value exactly when nothing
      after it mentions another "info", or the last one that does is encoded the same. */
  lemma HashedInfoIsTopInfo(es: seq<Entry>, k: nat, post: string)
    requires Encodable(DDict(es)) && IsTopInfo(es, k)
    ensures var r := ParseValue(Encode(DDict(es)) + post, None);
            && r.Done? && r.value.VDict? && "info" in r.value.m && r.value.m["info"] == Meaning(es[k].val)
            && (r.info == Some(Encode(es[k].val)) <==>
                  !MentionsInfo(es[k + 1..]) || LastInfoEntries(es[k + 1..], None) == Some(Encode(es[k].val)))
  {
    DecodeEncode(DDict(es), post, None);
    TopInfoEntries(es, k, map[], None);
    MentionedIsRecorded(es[k + 1..]);
  }

  /** Otherwise it is not: here the hash is of a nested value, and the files those of the
      torrent's info. */
  lemma NestedInfoIsHashed()
    ensures var es := [Entry("info", DDict([])), Entry("z", DDict([Entry("info", DInt(1))]))];
            && ParseValue(Encode(DDict(es)), None).Done?
            && ParseValue(Encode(DDict(es)), None).info == Some(Encode(DInt(1)))
  {
    var inner, tail := [Entry("info", DInt(1))], [Entry("z", DDict([Entry("info", DInt(1))]))];
    var es := [Entry("info", DDict([]))] + tail;
    assert es == [Entry("info", DDict([])), Entry("z", DDict([Entry("info", DInt(1))]))];
    LastInfoOfOne(inner[0], None);
    LastInfoOfOne(tail[0], Some(Encode(DDict([]))));
    LastInfoOr(DDict(inner), Some(Encode(DDict([]))));
    assert es[1..] == tail && [inner[0]] == inner && [tail[0]] == tail;
    DecodeEncode(DDict(es), "", None);
    assert Encode(DDict(es)) + "" == Encode(DDict(es));
  }

  lemma LastInfoOfOne(e: Entry, info: Option<string>)
    ensures LastInfoEntries([e], info) == if e.key == "info" then Some(Encode(e.val)) else LastInfo(e.val, info)
  {
    assert [e][1..] == [];
  }

  // ---------------------------------------------------------------- the decoder itself

  class Decoder {
    const data: string
    var pos: nat
    var infoRaw: Option<string>

    constructor (data: string)
      ensures this.data == data && pos == 0 && infoRaw == None
    {
      this.data, pos, infoRaw := data, 0, None;
    }

    /** What decoding did, where `r` says what it should have done from where it started. */
    ghost predicate Did(r: Parsed<Value>, v: Option<Value>)
      reads this
    {
      && pos <= |data|
      && match r
         case Fail => v == None
         case Done(value, rest, info) => v == Some(value) && rest == data[pos..] && infoRaw == info
    }

    method DecodeValue() returns (v: Option<Value>)
      requires pos <= |data|
      modifies this
      ensures Did(ParseValue(data[old(pos)..], old(infoRaw)), v)
      ensures v.Some? ==> old(pos) < pos
      decreases |data| - pos, 1
    {
      if pos >= |data| {
        return None;
      }
      ghost var s := data[pos..];
      if data[pos] == 'i' {
        var n := DecodeInt();
        v := if n.Some? then Some(VInt(n.value)) else None;
      } else if data[pos] == 'l' {
        v := DecodeList();
      } else if data[pos] == 'd' {
        v := DecodeDict();
      } else {
        var t := DecodeString();
        v := if t.Some? then Some(VStr(t.value)) else None;
      }
    }

    method DecodeInt() returns (n: Option<int>)
      requires pos < |data|
      modifies this`pos
      ensures pos <= |data|
      ensures var r := ParseIntValue(data[old(pos)..]);
              if r == None then n == None else n == Some(r.value.0) && r.value.1 == data[pos..] && old(pos) < pos
    {
      ghost var s := data[pos..];
      assert s[1..] == data[pos + 1..];
      var end := Find(data[pos + 1..], 'e');
      if end == None {
        return None;
      }
      n := ParseInt64(data[pos + 1..pos + 1 + end.value]);
      assert s[1..end.value + 1] == data[pos + 1..pos + 1 + end.value];
      if n == None {
        return;
      }
      assert s[end.value + 2..] == data[pos + end.value + 2..];
      pos := pos + 1 + end.value + 1;
    }

    method DecodeString() returns (t: Option<string>)
      requires pos <= |data|
      modifies this`pos
      ensures pos <= |data|
      ensures var r := ParseString(data[old(pos)..]);
              if r == None then t == None else t == Some(r.value.0) && r.value.1 == data[pos..] && old(pos) < pos
    {
      ghost var s := data[pos..];
      var colon := Find(data[pos..], ':');
      if colon == None {
        return None;
      }
      var n := ParseInt64(data[pos..pos + colon.value]);
      assert s[..colon.value] == data[pos..pos + colon.value];
      if n == None || n.value < 0 {
        return None;
      }
      var start := pos + colon.value + 1;
      var end := start + n.value;
      if end > |data| {
        return None;
      }
      assert s[colon.value + 1..colon.value + 1 + n.value] == data[start..end];
      assert s[colon.value + 1 + n.value..] == data[end..];
      pos := end;
      t := Some(data[start..end]);
    }

    method DecodeList() returns (v: Option<Value>)
      requires pos < |data|
      modifies this
      ensures Did(ParseItems(data[old(pos) + 1..], [], old(infoRaw)), v)
      ensures v.Some? ==> old(pos) < pos
      decreases |data| - pos, 0
    {
      pos := pos + 1;
      var list: seq<Value> := [];
      ghost var r := ParseItems(data[pos..], list, infoRaw);
      while true
        invariant old(pos) < pos <= |data|
        invariant r == ParseItems(data[pos..], list, infoRaw)
        decreases |data| - pos
      {
        var list';
        list', v := NextItem(list);
        if list' == None {
          return;
        }
        list := list'.value;
      }
    }

    /** One value, appended to `list`, or the end of the list. */
    method NextItem(list: seq<Value>) returns (list': Option<seq<Value>>, v: Option<Value>)
      requires pos <= |data|
      modifies this
      ensures list'.Some? ==>
                && old(pos) < pos <= |data|
                && ParseItems(data[old(pos)..], list, old(infoRaw)) == ParseItems(data[pos..], list'.value, infoRaw)
      ensures list' == None ==> Did(ParseItems(data[old(pos)..], list, old(infoRaw)), v)
      ensures list' == None && v.Some? ==> old(pos) < pos
      decreases |data| - pos, 3
    {
      list', v := None, None;
      if pos >= |data| {
        NothingLeft(list, map[]);
      } else if data[pos] == 'e' {
        v := CloseList(list);
      } else {
        list' := DecodeItem(list);
      }
    }

    lemma NothingLeft(list: seq<Value>, m: map<string, Value>)
      requires pos == |data|
      ensures ParseItems(data[pos..], list, infoRaw) == ParseEntries(data[pos..], m, infoRaw) == Fail
    {}

    /** The end of a list. */
    method CloseList(list: seq<Value>) returns (v: Option<Value>)
      requires pos < |data| && data[pos] == 'e'
      modifies this
      ensures v.Some? && old(pos) < pos
      ensures Did(ParseItems(data[old(pos)..], list, old(infoRaw)), v)
    {
      DropMore(data, pos);
      pos := pos + 1;
      v := Some(VList(list));
    }

    /** The end of a dict. */
    method CloseDict(m: map<string, Value>) returns (v: Option<Value>)
      requires pos < |data| && data[pos] == 'e'
      modifies this
      ensures v.Some? && old(pos) < pos
      ensures Did(ParseEntries(data[old(pos)..], m, old(infoRaw)), v)
    {
      DropMore(data, pos);
      pos := pos + 1;
      v := Some(VDict(m));
    }

    /** One value, appended to `list`. */
    method DecodeItem(list: seq<Value>) returns (list': Option<seq<Value>>)
      requires pos < |data| && data[pos] != 'e'
      modifies this
      ensures pos <= |data| && (list'.Some? ==> old(pos) < pos)
      ensures ParseItems(data[old(pos)..], list, old(infoRaw)) ==
                if list'.Some? then ParseItems(data[pos..], list'.value, infoRaw) else Fail
      decreases |data| - pos, 2
    {
      ghost var s, info := data[pos..], infoRaw;
      var x := DecodeValue();
      if x == None {
        return None;
      }
      ItemsStep(s, list, info, x.value, data[pos..], infoRaw);
      list' := Some(list + [x.value]);
    }

    method DecodeDict() returns (v: Option<Value>)
      requires pos < |data|
      modifies this
      ensures Did(ParseEntries(data[old(pos) + 1..], map[], old(infoRaw)), v)
      ensures v.Some? ==> old(pos) < pos
      decreases |data| - pos, 0
    {
      pos := pos + 1;
      var m: map<string, Value> := map[];
      ghost var r := ParseEntries(data[pos..], m, infoRaw);
      while true
        invariant old(pos) < pos <= |data|
        invariant r == ParseEntries(data[pos..], m, infoRaw)
        decreases |data| - pos
      {
        var m';
        m', v := NextEntry(m);
        if m' == None {
          return;
        }
        m := m'.value;
      }
    }

    /** One key and its value, put into `m`, or the end of the dict. */
    method NextEntry(m: map<string, Value>) returns (m': Option<map<string, Value>>, v: Option<Value>)
      requires pos <= |data|
      modifies this
      ensures m'.Some? ==>
                && old(pos) < pos <= |data|
                && ParseEntries(data[old(pos)..], m, old(infoRaw)) == ParseEntries(data[pos..], m'.value, infoRaw)
      ensures m' == None ==> Did(ParseEntries(data[old(pos)..], m, old(infoRaw)), v)
      ensures m' == None && v.Some? ==> old(pos) < pos
      decreases |data| - pos, 3
    {
      m', v := None, None;
      if pos >= |data| {
        NothingLeft([], m);
      } else if data[pos] == 'e' {
        v := CloseDict(m);
      } else {
        m' := DecodeEntry(m);
      }
    }

    /** One key and its value, put into `m`. */
    method DecodeEntry(m: map<string, Value>) returns (m': Option<map<string, Value>>)
      requires pos < |data| && data[pos] != 'e'
      modifies this
      ensures pos <= |data| && (m'.Some? ==> old(pos) < pos)
      ensures ParseEntries(data[old(pos)..], m, old(infoRaw)) ==
                if m'.Some? then ParseEntries(data[pos..], m'.value, infoRaw) else Fail
      decreases |data| - pos, 2
    {
      ghost var s, info := data[pos..], infoRaw;
      var key := DecodeString();
      if key == None {
        return None;
      }
      var valStart := pos;
      var val := DecodeValue();
      if val == None {
        return None;
      }
      EntriesStep(s, m, info, key.value, data[valStart..], val.value, data[pos..], infoRaw);
      SpanOfData(valStart);
      if key.value == "info" {
        infoRaw := Some(data[valStart..pos]);
      }
      m' := Some(m[key.value := val.value]);
    }

    lemma SpanOfData(start: nat)
      requires start <= pos <= |data|
      ensures Span(data[start..], data[pos..]) == data[start..pos]
    {}
  }

  // ---------------------------------------------------------------- the file list

  datatype FileEntry = FileEntry(index: nat, path: string, length: int)
  datatype Torrent =
    | BadBencode
    | NotADict
    | MissingInfo
    | InfoNotADict
    | Torrent(infoRaw: string, files: seq<FileEntry>)

  function IntAt(m: map<string, Value>, key: string): int {
    if key in m && m[key].VInt? then m[key].n else 0
  }

  function StringAt(m: map<string, Value>, key: string): string {
    if key in m && m[key].VStr? then m[key].s else ""
  }

  function ListAt(m: map<string, Value>, key: string): seq<Value> {
    if key in m && m[key].VList? then m[key].vs else []
  }

  function Strings(vs: seq<Value>): seq<string> {
    if vs == [] then []
    else Strings(vs[..|vs| - 1]) + if vs[|vs| - 1].VStr? then [vs[|vs| - 1].s] else []
  }

  function Join(parts: seq<string>): string {
    if parts == [] then "" else if |parts| == 1 then parts[0] else Join(parts[..|parts| - 1]) + "/" + parts[|parts| - 1]
  }

  /** Every string among the parts of a path is kept, in order, and nothing else. */
  lemma {:induction false} StringsJoin(a: seq<Value>, b: seq<Value>)
    ensures Strings([]) == [] && Strings(a + b) == Strings(a) + Strings(b)
    ensures |b| == 1 ==> Strings(b) == if b[0].VStr? then [b[0].s] else []
  {
    if b == [] {
      NoneBefore(a);
      NoneBefore(Strings(a));
    } else {
      var n := |b| - 1;
      StringsJoin(a, b[..n]);
      JoinLast(b);
      Assoc(a, b[..n], [b[n]]);
      SplitLast(a + b[..n], b[n]);
      Assoc(Strings(a), Strings(b[..n]), if b[n].VStr? then [b[n].s] else []);
      if n == 0 { NoneBefore(Strings(b)); }
    }
  }

  /** A path is its parts with a slash between each two. */
  lemma {:induction false} PathOfParts(a: seq<string>, b: seq<string>)
    ensures Join([]) == "" && (|b| == 1 ==> Join(b) == b[0])
    ensures a != [] && b != [] ==> Join(a + b) == Join(a) + "/" + Join(b)
  {
    if a != [] && b != [] {
      var n := |b| - 1;
      JoinLast(b);
      Assoc(a, b[..n], [b[n]]);
      SplitLast(a + b[..n], b[n]);
      if n == 0 {
        NoneBefore(a);
      } else {
        PathOfParts(a, b[..n]);
        Assoc(Join(a) + "/", Join(b[..n]), "/" + b[n]);
        Assoc(Join(b[..n]), "/", b[n]);
        Assoc(Join(a) + "/" + Join(b[..n]), "/", b[n]);
      }
    }
  }

  /** What the dict of a file says: its path, part by part, and its length, if they are there. */
  ghost predicate IsFile(f: FileEntry, m: map<string, Value>) {
    && f.length == (if "length" in m && m["length"].VInt? then m["length"].n else 0)
    && (if "path" in m && m["path"].VList? then f.path == Join(Strings(m["path"].vs)) else f.path == "")
  }

  function FileAt(m: map<string, Value>, index: nat): FileEntry {
    FileEntry(index, Join(Strings(ListAt(m, "path"))), IntAt(m, "length"))
  }

  /** `files` are the dicts among `vs`, in order, each under its own position. */
  ghost predicate AreFilesOf(files: seq<FileEntry>, vs: seq<Value>) {
    && (forall f :: f in files ==> f.index < |vs| && vs[f.index].VDict? && f == FileAt(vs[f.index].m, f.index))
    && (forall i :: 0 <= i < |vs| && vs[i].VDict? ==> FileAt(vs[i].m, i) in files)
    && (forall i, j :: 0 <= i < j < |files| ==> files[i].index < files[j].index)
  }

  method PathStrings(vs: seq<Value>) returns (parts: seq<string>)
    ensures parts == Strings(vs)
  {
    parts := [];
    for i := 0 to |vs|
      invariant parts == Strings(vs[..i])
    {
      assert vs[..i + 1][..i] == vs[..i];
      if vs[i].VStr? {
        parts := parts + [vs[i].s];
      }
    }
    assert vs[..|vs|] == vs;
  }

  lemma FilesOneMore(files: seq<FileEntry>, vs: seq<Value>, v: Value)
    requires AreFilesOf(files, vs)
    ensures AreFilesOf(if v.VDict? then files + [FileAt(v.m, |vs|)] else files, vs + [v])
  {
    var all, files' := vs + [v], if v.VDict? then files + [FileAt(v.m, |vs|)] else files;
    forall i | 0 <= i < |all| && all[i].VDict? ensures FileAt(all[i].m, i) in files' {
      if i < |vs| {
        assert FileAt(vs[i].m, i) in files;
      } else {
        assert files'[|files|] == FileAt(v.m, |vs|);
      }
    }
    forall f | f in files' ensures f.index < |all| && all[f.index].VDict? && f == FileAt(all[f.index].m, f.index) {
      if f in files { assert all[f.index] == vs[f.index]; }
    }
    forall i, j | 0 <= i < j < |files'| ensures files'[i].index < files'[j].index {
      assert files[i] in files;
    }
  }

  method ListFiles(vs: seq<Value>) returns (files: seq<FileEntry>)
    ensures AreFilesOf(files, vs)
    ensures forall f :: f in files ==> f.index < |vs| && vs[f.index].VDict? && IsFile(f, vs[f.index].m)
  {
    files := [];
    for i := 0 to |vs|
      invariant AreFilesOf(files, vs[..i])
    {
      assert vs[..i + 1] == vs[..i] + [vs[i]];
      FilesOneMore(files, vs[..i], vs[i]);
      if vs[i].VDict? {
        var parts := PathStrings(ListAt(vs[i].m, "path"));
        files := files + [FileEntry(i, Join(parts), IntAt(vs[i].m, "length"))];
      }
    }
    assert vs[..|vs|] == vs;
  }

  /** What a .torrent file is: the info bytes to hash, and its files. */
  method ParseTorrentFile(data: string) returns (t: Torrent)
    ensures var r := ParseValue(data, None);
            match r
            case Fail => t == BadBencode
            case Done(top, _, info) =>
              if !top.VDict? then t == NotADict
              else if info == None then t == MissingInfo
              else if "info" !in top.m || !top.m["info"].VDict? then t == InfoNotADict
              else
                && t.Torrent? && t.infoRaw == info.value
                && var dict := top.m["info"].m;
                   if "files" in dict && dict["files"].VList? then AreFilesOf(t.files, dict["files"].vs)
                   else
                     && |t.files| == 1 && t.files[0].index == 0
                     && t.files[0].path == (if "name" in dict && dict["name"].VStr? then dict["name"].s else "")
                     && t.files[0].length == if "length" in dict && dict["length"].VInt? then dict["length"].n else 0
  {
    var d := new Decoder(data);
    assert data[0..] == data;
    var top := d.DecodeValue();
    if top == None {
      return BadBencode;
    }
    if !top.value.VDict? {
      return NotADict;
    }
    if d.infoRaw == None {
      return MissingInfo;
    }
    if "info" !in top.value.m || !top.value.m["info"].VDict? {
      return InfoNotADict;
    }
    var dict := top.value.m["info"].m;
    var files: seq<FileEntry>;
    if "files" in dict && dict["files"].VList? {
      files := ListFiles(dict["files"].vs);
    } else {
      files := [FileEntry(0, StringAt(dict, "name"), IntAt(dict, "length"))];
    }
    t := Torrent(d.infoRaw.value, files);
  }
}
