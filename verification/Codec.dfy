/** The wire codec: big-endian integers, length-prefixed strings, and one byte
    that selects the layout of the rest. */
module Codec {
  import opened Bytes
  import opened Payloads
  import opened Utf8

  const MAX_STR := 0x10_0000
  const MAX_BLOB := 0x100_0000

  // ------------------------------------------------------------------ fields

  /** The primitive encodings of `Encoder` and `Decoder`. */
  datatype Kind = U8 | U16 | U32 | U64 | I32 | Bool | Str | Blobs | Fixed32

  datatype Field = Num(n: nat) | Int(i: int) | Flag(b: bool) | Text(s: Blob) | Hash32(d: Digest)

  predicate Shaped(k: Kind, f: Field)
  {
    match k
    case U8 | U16 | U32 | U64 => f.Num?
    case I32 => f.Int?
    case Bool => f.Flag?
    case Str | Blobs => f.Text?
    case Fixed32 => f.Hash32?
  }

  function Width(k: Kind): nat
  {
    match k
    case U8 | Bool => 1
    case U16 => 2
    case U32 | I32 => 4
    case U64 => 8
    case Str | Blobs => 4
    case Fixed32 => 32
  }

  function MaxLen(k: Kind): nat
  {
    if k == Str then MAX_STR else MAX_BLOB
  }

  /** The values that survive the wire. */
  predicate FieldFits(k: Kind, f: Field)
  {
    Shaped(k, f) &&
    match k
    case U8 | U16 | U32 | U64 => f.n < Pow256(Width(k))
    case I32 => -0x8000_0000 <= f.i < 0x8000_0000
    case Bool | Fixed32 => true
    case Str | Blobs => |f.s| <= MaxLen(k) && TextOk(k, f.s)
  }

  predicate TextOk(k: Kind, s: Blob)
  {
    k == Str ==> ValidUtf8(s)
  }

  /** `to_be_bytes` truncates like the casts of the source. */
  function EncodeField(k: Kind, f: Field): Blob
    requires Shaped(k, f)
  {
    match k
    case U8 | U16 | U32 | U64 => ToBigEndian(f.n, Width(k))
    case I32 => ToBigEndian(f.i % 0x1_0000_0000, 4)
    case Bool => [if f.b then 1 else 0]
    case Str | Blobs => ToBigEndian(|f.s|, 4) + f.s
    case Fixed32 => f.d
  }

  /** A decoded field and the bytes behind it. */
  datatype Parsed = Parsed(field: Field, rest: Blob)

  function DecodeField(k: Kind, buf: Blob): Result<Parsed>
  {
    if |buf| < Width(k) then Err("truncated message")
    else
      var head, rest := buf[..Width(k)], buf[Width(k)..];
      match k
      case U8 | U16 | U32 | U64 => Ok(Parsed(Num(FromBigEndian(head)), rest))
      case I32 =>
        var v := FromBigEndian(head);
        Ok(Parsed(Int(if v < 0x8000_0000 then v else v - 0x1_0000_0000), rest))
      case Bool => Ok(Parsed(Flag(head[0] != 0), rest))
      case Fixed32 => Ok(Parsed(Hash32(head), rest))
      case Str | Blobs =>
        var n := FromBigEndian(head);
        if n > MaxLen(k) then Err("too large")
        else if n > |rest| then Err("truncated message")
        else if !TextOk(k, rest[..n]) then Err("invalid UTF-8 string")
        else Ok(Parsed(Text(rest[..n]), rest[n..]))
  }

  lemma FieldRoundTrip(k: Kind, f: Field, rest: Blob)
    requires FieldFits(k, f)
    ensures DecodeField(k, EncodeField(k, f) + rest) == Ok(Parsed(f, rest))
  {
    hide ValidUtf8;
    var e := EncodeField(k, f);
    Pow256Values();
    match k
    case U8 | U16 | U32 | U64 => BigEndianRoundTrip(f.n, Width(k));
    case I32 => BigEndianRoundTrip(f.i % 0x1_0000_0000, 4);
    case Bool | Fixed32 =>
    case Str | Blobs =>
      BigEndianRoundTrip(|f.s|, 4);
      assert (e + rest)[4..] == f.s + rest;
    assert (e + rest)[..Width(k)] == e[..Width(k)];
  }

  /** Decoding yields only values that fit, and uses exactly the bytes their
      encoding has; only a boolean byte may differ. */
  lemma FieldSound(k: Kind, buf: Blob)
    requires DecodeField(k, buf).Ok?
    ensures var r := DecodeField(k, buf).value;
            && FieldFits(k, r.field)
            && |buf| == |EncodeField(k, r.field)| + |r.rest|
            && (k != Bool ==> buf == EncodeField(k, r.field) + r.rest)
  {
    hide ValidUtf8, FromBigEndian, ToBigEndian;
    Pow256Values();
    var head := buf[..Width(k)];
    BigEndianInverse(head);
    assert head + buf[Width(k)..] == buf;
    if k == Str || k == Blobs {
      TextSound(k, buf);
    }
  }

  lemma TextParts(k: Kind, buf: Blob)
    requires DecodeField(k, buf).Ok? && (k == Str || k == Blobs)
    ensures |buf| >= 4
    ensures var n, rest := FromBigEndian(buf[..4]), buf[4..];
            n <= MaxLen(k) && n <= |rest| && TextOk(k, rest[..n]) &&
            DecodeField(k, buf).value == Parsed(Text(rest[..n]), rest[n..])
  {
    hide TextOk, FromBigEndian;
  }

  lemma TextIs(k: Kind, s: Blob)
    requires k == Str || k == Blobs
    ensures Shaped(k, Text(s)) && EncodeField(k, Text(s)) == ToBigEndian(|s|, 4) + s
    ensures FieldFits(k, Text(s)) <==> |s| <= MaxLen(k) && TextOk(k, s)
  {
    hide TextOk, MaxLen, ToBigEndian;
  }

  lemma TextSound(k: Kind, buf: Blob)
    requires DecodeField(k, buf).Ok? && (k == Str || k == Blobs)
    ensures var r := DecodeField(k, buf).value;
            && FieldFits(k, r.field)
            && |buf| == |EncodeField(k, r.field)| + |r.rest|
            && buf == EncodeField(k, r.field) + r.rest
  {
    hide *;
    TextParts(k, buf);
    var head, rest := buf[..4], buf[4..];
    var n := FromBigEndian(head);
    BigEndianInverse(head);
    TextIs(k, rest[..n]);
    assert head + rest == buf && rest[..n] + rest[n..] == rest;
    assert head + rest[..n] + rest[n..] == head + (rest[..n] + rest[n..]);
  }

  /** Bytes after a field do not influence how it is read. */
  lemma FieldExtend(k: Kind, buf: Blob, ext: Blob)
    requires DecodeField(k, buf).Ok?
    ensures var r := DecodeField(k, buf).value;
            DecodeField(k, buf + ext) == Ok(Parsed(r.field, r.rest + ext))
  {
    hide ValidUtf8;
    var w := Width(k);
    var rest := buf[w..];
    assert (buf + ext)[..w] == buf[..w] && (buf + ext)[w..] == rest + ext;
    if k == Str || k == Blobs {
      var n := FromBigEndian(buf[..w]);
      assert (rest + ext)[..n] == rest[..n] && (rest + ext)[n..] == rest[n..] + ext;
    }
  }

  // ------------------------------------------------------------- field lists

  ghost predicate AllShaped(ks: seq<Kind>, fs: seq<Field>)
  {
    |ks| == |fs| && forall i :: 0 <= i < |ks| ==> Shaped(ks[i], fs[i])
  }

  ghost predicate AllFit(ks: seq<Kind>, fs: seq<Field>)
  {
    |ks| == |fs| && forall i :: 0 <= i < |ks| ==> FieldFits(ks[i], fs[i])
  }

  function EncodeFields(ks: seq<Kind>, fs: seq<Field>): Blob
    requires AllShaped(ks, fs)
  {
    if ks == [] then [] else EncodeField(ks[0], fs[0]) + EncodeFields(ks[1..], fs[1..])
  }

  datatype ParsedList = ParsedList(fields: seq<Field>, rest: Blob)

  function DecodeFields(ks: seq<Kind>, buf: Blob): (r: Result<ParsedList>)
    ensures r.Ok? ==> |r.value.fields| == |ks|
  {
    if ks == [] then Ok(ParsedList([], buf))
    else
      match DecodeField(ks[0], buf)
      case Err(e) => Err(e)
      case Ok(p) =>
        match DecodeFields(ks[1..], p.rest)
        case Err(e) => Err(e)
        case Ok(q) => Ok(ParsedList([p.field] + q.fields, q.rest))
  }

  lemma {:induction false} FieldsRoundTrip(ks: seq<Kind>, fs: seq<Field>, rest: Blob)
    requires AllFit(ks, fs)
    ensures AllShaped(ks, fs)
    ensures DecodeFields(ks, EncodeFields(ks, fs) + rest) == Ok(ParsedList(fs, rest))
  {
    hide FieldFits, DecodeField, EncodeField;
    forall i | 0 <= i < |ks| ensures Shaped(ks[i], fs[i]) { FitsShaped(ks[i], fs[i]); }
    if ks == [] {
      assert [] + rest == rest;
    } else {
      var e, tail := EncodeField(ks[0], fs[0]), EncodeFields(ks[1..], fs[1..]);
      assert e + tail + rest == e + (tail + rest);
      FieldRoundTrip(ks[0], fs[0], tail + rest);
      FieldsRoundTrip(ks[1..], fs[1..], rest);
      assert [fs[0]] + fs[1..] == fs;
    }
  }

  lemma FitsShaped(k: Kind, f: Field)
    requires FieldFits(k, f)
    ensures Shaped(k, f)
  {
  }

  predicate HasBool(ks: seq<Kind>)
  {
    Bool in ks
  }

  lemma {:induction false} FieldsSound(ks: seq<Kind>, buf: Blob)
    requires DecodeFields(ks, buf).Ok?
    ensures var r := DecodeFields(ks, buf).value;
            && AllFit(ks, r.fields) && AllShaped(ks, r.fields)
            && |buf| == |EncodeFields(ks, r.fields)| + |r.rest|
            && (!HasBool(ks) ==> buf == EncodeFields(ks, r.fields) + r.rest)
  {
    hide FieldFits, DecodeField, EncodeField;
    if ks != [] {
      var p := DecodeField(ks[0], buf).value;
      var q := DecodeFields(ks[1..], p.rest).value;
      FieldSound(ks[0], buf);
      FieldsSound(ks[1..], p.rest);
      FitsShaped(ks[0], p.field);
      var fs := [p.field] + q.fields;
      assert fs[1..] == q.fields;
      assert AllFit(ks, fs) && AllShaped(ks, fs) by { ConsFits(ks, p.field, q.fields); }
      var e, tail := EncodeField(ks[0], p.field), EncodeFields(ks[1..], q.fields);
      assert e + (tail + q.rest) == (e + tail) + q.rest;
    }
  }

  /** Offsets of the boolean bytes that the decoder reads, counted from `at`. */
  function BoolsIn(ks: seq<Kind>, buf: Blob, at: nat): set<nat>
  {
    if ks == [] then {}
    else
      match DecodeField(ks[0], buf)
      case Err(_) => {}
      case Ok(p) =>
        (if ks[0] == Bool then {at} else {}) + BoolsIn(ks[1..], p.rest, at + Max(|buf|, |p.rest|) - |p.rest|)
  }

  /** `b` equals `a` but for boolean bytes above one, which became one. */
  predicate DiffersInBools(a: Blob, b: Blob, bools: set<nat>, at: nat)
  {
    |a| == |b| && forall i :: 0 <= i < |a| && a[i] != b[i] ==> at + i in bools && a[i] > 1 && b[i] == 1
  }

  lemma FieldsUnfold(ks: seq<Kind>, buf: Blob, at: nat)
    requires ks != [] && DecodeFields(ks, buf).Ok?
    ensures DecodeField(ks[0], buf).Ok?
    ensures var p := DecodeField(ks[0], buf).value;
            && DecodeFields(ks[1..], p.rest).Ok?
            && var q := DecodeFields(ks[1..], p.rest).value;
               DecodeFields(ks, buf).value == ParsedList([p.field] + q.fields, q.rest)
    ensures var p := DecodeField(ks[0], buf).value;
            |p.rest| <= |buf| ==>
              BoolsIn(ks, buf, at) ==
              (if ks[0] == Bool then {at} else {}) + BoolsIn(ks[1..], p.rest, at + (|buf| - |p.rest|))
  {
    hide DecodeField;
  }

  lemma EncodeUnfolds(ks: seq<Kind>, f: Field, fs: seq<Field>)
    requires ks != [] && AllShaped(ks, [f] + fs)
    ensures Shaped(ks[0], f) && AllShaped(ks[1..], fs)
    ensures EncodeFields(ks, [f] + fs) == EncodeField(ks[0], f) + EncodeFields(ks[1..], fs)
  {
    hide EncodeField, Shaped;
    assert ([f] + fs)[0] == f && ([f] + fs)[1..] == fs;
    assert forall i :: 0 <= i < |fs| ==> ks[1..][i] == ks[i + 1] && fs[i] == ([f] + fs)[i + 1];
  }

  lemma {:induction false} FieldsDiffer(ks: seq<Kind>, buf: Blob, at: nat)
    requires DecodeFields(ks, buf).Ok?
    ensures var r := DecodeFields(ks, buf).value;
            && AllShaped(ks, r.fields) && |buf| >= |r.rest|
            && DiffersInBools(buf[..|buf| - |r.rest|], EncodeFields(ks, r.fields), BoolsIn(ks, buf, at), at)
  {
    hide *;
    FieldsSound(ks, buf);
    if ks == [] {
      NoFields(buf, at);
    } else {
      FieldsUnfold(ks, buf, at);
      var p := DecodeField(ks[0], buf).value;
      var q := DecodeFields(ks[1..], p.rest).value;
      FieldDiffers(ks[0], buf, at);
      FieldsSound(ks[1..], p.rest);
      var n := |buf| - |p.rest|;
      FieldsDiffer(ks[1..], p.rest, at + n);
      EncodeUnfolds(ks, p.field, q.fields);
      DiffersSum(buf[..n], EncodeField(ks[0], p.field), if ks[0] == Bool then {at} else {},
                 p.rest[..|p.rest| - |q.rest|], EncodeFields(ks[1..], q.fields), BoolsIn(ks[1..], p.rest, at + n), at);
      SlicesJoin(buf, p.rest, n, |q.rest|);
    }
  }

  lemma SlicesJoin(buf: Blob, rest: Blob, n: nat, k: nat)
    requires n <= |buf| && rest == buf[n..] && k <= |rest|
    ensures buf[..n] + rest[..|rest| - k] == buf[..|buf| - k]
  {
  }

  lemma NoFields(buf: Blob, at: nat)
    ensures DecodeFields([], buf) == Ok(ParsedList([], buf)) && AllShaped([], []) && EncodeFields([], []) == []
    ensures buf[..|buf| - |buf|] == [] && DiffersInBools([], [], BoolsIn([], buf, at), at)
  {
  }

  lemma FieldDiffers(k: Kind, buf: Blob, at: nat)
    requires DecodeField(k, buf).Ok?
    ensures var r := DecodeField(k, buf).value; var n := |buf| - |r.rest|;
            && n >= 0 && Shaped(k, r.field) && r.rest == buf[n..]
            && DiffersInBools(buf[..n], EncodeField(k, r.field), if k == Bool then {at} else {}, at)
  {
    hide ValidUtf8, FromBigEndian, ToBigEndian;
    FieldSound(k, buf);
    var r := DecodeField(k, buf).value;
    if k == Bool {
      assert buf[..1] == [buf[0]];
    } else {
      var e := EncodeField(k, r.field);
      assert buf == e + r.rest && buf[..|e|] == e;
    }
  }

  lemma DiffersSum(a: Blob, b: Blob, x: set<nat>, a': Blob, b': Blob, y: set<nat>, at: nat)
    requires DiffersInBools(a, b, x, at) && DiffersInBools(a', b', y, at + |a|)
    ensures DiffersInBools(a + a', b + b', x + y, at)
  {
  }

  lemma ConsFits(ks: seq<Kind>, f: Field, fs: seq<Field>)
    requires ks != [] && FieldFits(ks[0], f) && AllFit(ks[1..], fs)
    ensures AllFit(ks, [f] + fs) && AllShaped(ks, [f] + fs)
  {
    hide FieldFits;
    forall i | 0 <= i < |ks| ensures FieldFits(ks[i], ([f] + fs)[i]) && Shaped(ks[i], ([f] + fs)[i]) {
      if i > 0 {
        assert ks[i] == ks[1..][i - 1];
      }
      FitsShaped(ks[i], ([f] + fs)[i]);
    }
  }

  lemma {:induction false} FieldsExtend(ks: seq<Kind>, buf: Blob, ext: Blob)
    requires DecodeFields(ks, buf).Ok?
    ensures var r := DecodeFields(ks, buf).value;
            DecodeFields(ks, buf + ext) == Ok(ParsedList(r.fields, r.rest + ext))
  {
    hide DecodeField;
    if ks != [] {
      FieldExtend(ks[0], buf, ext);
      FieldsExtend(ks[1..], DecodeField(ks[0], buf).value.rest, ext);
    }
  }

  // ---------------------------------------------------------------- messages

  /** A message as the codec sees it: its selector byte, and its fields in the
      order in which the encoder is called for them. */
  datatype Wire = Wire(tag: byte, fields: seq<Field>)

  function PayloadKinds(tag: byte): Option<seq<Kind>>
  {
    match tag
    case 1 => Some([U64, U64, Str, Bool, Str])
    case 2 => Some([U64, U8, Blobs])
    case 3 => Some([U64, I32, Bool, Str])
    case 4 => Some([U64, U16, Str])
    case 10 => Some([U64, Str, Str, Bool, U64, U64])
    case 11 => Some([U64, Str])
    case 12 => Some([U64, Str, U32])
    case 13 => Some([U64, U64, Str, U64, U32, Fixed32])
    case 14 => Some([U64, Blobs])
    case 15 => Some([U64, Fixed32])
    case 16 => Some([U64, Str, Str, U32])
    case 17 => Some([U64])
    case 18 => Some([U64, Bool, Str, Str, U64, Fixed32])
    case 19 => Some([U64, U64])
    case 20 => Some([U64, Str])
    case 21 => Some([U64, U64, Str, U8, U64, U32, Str, Fixed32])
    case 22 => Some([U64, U64, U8, U32, U64])
    case 23 => Some([U64, U64, U64, Blobs])
    case 24 => Some([U64, U64, U64])
    case 25 => Some([U64, U64])
    case 26 => Some([U64])
    case 30 => Some([U64, Str])
    case 31 => Some([U64, I32, Str])
    case _ => None
  }

  function PayloadWire(p: Payload): Wire
  {
    match p
    case Exec(id, timeoutSecs, cwd, raw, command) =>
      Wire(1, [Num(id), Num(timeoutSecs), Text(cwd), Flag(raw), Text(command)])
    case ExecOut(id, stream, data) => Wire(2, [Num(id), Num(stream), Text(data)])
    case ExecEnd(id, rc, timedOut, reason) => Wire(3, [Num(id), Int(rc), Flag(timedOut), Text(reason)])
    case Error(id, code, message) => Wire(4, [Num(id), Num(code), Text(message)])
    case PushBegin(id, remotePath, sourceName, sourceIsDir, sourceFiles, sourceBytes) =>
      Wire(10, [Num(id), Text(remotePath), Text(sourceName), Flag(sourceIsDir), Num(sourceFiles), Num(sourceBytes)])
    case PushReady(id, remoteRoot) => Wire(11, [Num(id), Text(remoteRoot)])
    case Mkdir(id, rel, mode) => Wire(12, [Num(id), Text(rel), Num(mode)])
    case FileBegin(id, fileSeq, rel, size, mode, sha256) =>
      Wire(13, [Num(id), Num(fileSeq), Text(rel), Num(size), Num(mode), Hash32(sha256)])
    case Data(id, data) => Wire(14, [Num(id), Text(data)])
    case FileEnd(id, sha256) => Wire(15, [Num(id), Hash32(sha256)])
    case Symlink(id, rel, target, mode) => Wire(16, [Num(id), Text(rel), Text(target), Num(mode)])
    case PushEnd(id) => Wire(17, [Num(id)])
    case TransferDone(id, ok, error, remotePath, bytes, sha256) =>
      Wire(18, [Num(id), Flag(ok), Text(error), Text(remotePath), Num(bytes), Hash32(sha256)])
    case ManifestEnd(id, files) => Wire(19, [Num(id), Num(files)])
    case PullBegin(id, remotePath) => Wire(20, [Num(id), Text(remotePath)])
    case Entry(id, fileSeq, rel, kind, size, mode, linkTarget, sha256) =>
      Wire(21, [Num(id), Num(fileSeq), Text(rel), Num(kind), Num(size), Num(mode), Text(linkTarget), Hash32(sha256)])
    case FilePlan(id, fileSeq, action, blockSize, blockCount) =>
      Wire(22, [Num(id), Num(fileSeq), Num(action), Num(blockSize), Num(blockCount)])
    case FileSigs(id, fileSeq, first, sigs) => Wire(23, [Num(id), Num(fileSeq), Num(first), Text(sigs)])
    case Copy(id, start, len) => Wire(24, [Num(id), Num(start), Num(len)])
    case FileStart(id, fileSeq) => Wire(25, [Num(id), Num(fileSeq)])
    case PlanEnd(id) => Wire(26, [Num(id)])
    case Shutdown(id, reason) => Wire(30, [Num(id), Text(reason)])
    case Bye(id, code, reason) => Wire(31, [Num(id), Int(code), Text(reason)])
  }

  function BuildPayload(tag: byte, f: seq<Field>): Payload
    requires PayloadKinds(tag).Some? && AllShaped(PayloadKinds(tag).value, f)
  {
    var ks := PayloadKinds(tag).value;
    assert forall i :: 0 <= i < |ks| ==> Shaped(ks[i], f[i]);
    match tag
    case 1 => Exec(f[0].n, f[1].n, f[2].s, f[3].b, f[4].s)
    case 2 => ExecOut(f[0].n, f[1].n, f[2].s)
    case 3 => ExecEnd(f[0].n, f[1].i, f[2].b, f[3].s)
    case 4 => Error(f[0].n, f[1].n, f[2].s)
    case 10 => PushBegin(f[0].n, f[1].s, f[2].s, f[3].b, f[4].n, f[5].n)
    case 11 => PushReady(f[0].n, f[1].s)
    case 12 => Mkdir(f[0].n, f[1].s, f[2].n)
    case 13 => FileBegin(f[0].n, f[1].n, f[2].s, f[3].n, f[4].n, f[5].d)
    case 14 => Data(f[0].n, f[1].s)
    case 15 => FileEnd(f[0].n, f[1].d)
    case 16 => Symlink(f[0].n, f[1].s, f[2].s, f[3].n)
    case 17 => PushEnd(f[0].n)
    case 18 => TransferDone(f[0].n, f[1].b, f[2].s, f[3].s, f[4].n, f[5].d)
    case 19 => ManifestEnd(f[0].n, f[1].n)
    case 20 => PullBegin(f[0].n, f[1].s)
    case 21 => Entry(f[0].n, f[1].n, f[2].s, f[3].n, f[4].n, f[5].n, f[6].s, f[7].d)
    case 22 => FilePlan(f[0].n, f[1].n, f[2].n, f[3].n, f[4].n)
    case 23 => FileSigs(f[0].n, f[1].n, f[2].n, f[3].s)
    case 24 => Copy(f[0].n, f[1].n, f[2].n)
    case 25 => FileStart(f[0].n, f[1].n)
    case 26 => PlanEnd(f[0].n)
    case 30 => Shutdown(f[0].n, f[1].s)
    case 31 => Bye(f[0].n, f[1].i, f[2].s)
  }

  lemma PayloadShaped(p: Payload)
    ensures var w := PayloadWire(p);
            PayloadKinds(w.tag).Some? && AllShaped(PayloadKinds(w.tag).value, w.fields)
  {
    var tag := PayloadWire(p).tag;
    hide *;
    if tag <= 12 {
      ShapedLow(p);
    } else if tag <= 18 {
      ShapedMiddle(p);
    } else {
      ShapedHigh(p);
    }
  }

  lemma ShapedLow(p: Payload)
    requires PayloadWire(p).tag <= 12
    ensures var w := PayloadWire(p);
            PayloadKinds(w.tag).Some? && AllShaped(PayloadKinds(w.tag).value, w.fields)
  {
  }

  lemma ShapedMiddle(p: Payload)
    requires 13 <= PayloadWire(p).tag <= 18
    ensures var w := PayloadWire(p);
            PayloadKinds(w.tag).Some? && AllShaped(PayloadKinds(w.tag).value, w.fields)
  {
  }

  lemma ShapedHigh(p: Payload)
    requires 19 <= PayloadWire(p).tag
    ensures var w := PayloadWire(p);
            PayloadKinds(w.tag).Some? && AllShaped(PayloadKinds(w.tag).value, w.fields)
  {
  }

  lemma BuiltFirst(p: Payload, w: Wire)
    requires w == PayloadWire(p) && w.tag < 11
    requires PayloadKinds(w.tag).Some? && AllShaped(PayloadKinds(w.tag).value, w.fields)
    ensures BuildPayload(w.tag, w.fields) == p
  {
    hide AllShaped;
  }

  lemma BuiltSecond(p: Payload, w: Wire)
    requires w == PayloadWire(p) && 11 <= w.tag < 16
    requires PayloadKinds(w.tag).Some? && AllShaped(PayloadKinds(w.tag).value, w.fields)
    ensures BuildPayload(w.tag, w.fields) == p
  {
    hide AllShaped;
  }

  lemma BuiltThird(p: Payload, w: Wire)
    requires w == PayloadWire(p) && 16 <= w.tag < 22
    requires PayloadKinds(w.tag).Some? && AllShaped(PayloadKinds(w.tag).value, w.fields)
    ensures BuildPayload(w.tag, w.fields) == p
  {
    hide AllShaped;
  }

  lemma BuiltLast(p: Payload, w: Wire)
    requires w == PayloadWire(p) && 22 <= w.tag
    requires PayloadKinds(w.tag).Some? && AllShaped(PayloadKinds(w.tag).value, w.fields)
    ensures BuildPayload(w.tag, w.fields) == p
  {
    hide AllShaped;
  }

  lemma PayloadBuilt(p: Payload, w: Wire)
    requires w == PayloadWire(p) && PayloadKinds(w.tag).Some? && AllShaped(PayloadKinds(w.tag).value, w.fields)
    ensures BuildPayload(w.tag, w.fields) == p
  {
    hide *;
    if w.tag < 11 {
      BuiltFirst(p, w);
    } else if w.tag < 16 {
      BuiltSecond(p, w);
    } else if w.tag < 22 {
      BuiltThird(p, w);
    } else {
      BuiltLast(p, w);
    }
  }

  lemma PayloadIdFirst(p: Payload)
    ensures var w := PayloadWire(p);
            w.fields != [] && w.fields[0] == Num(p.id) && PayloadKinds(w.tag).Some? &&
            PayloadKinds(w.tag).value != [] && PayloadKinds(w.tag).value[0] == U64
  {
  }

  lemma BuildFirst(tag: byte, f: seq<Field>)
    requires tag < 11 && PayloadKinds(tag).Some? && AllShaped(PayloadKinds(tag).value, f)
    ensures PayloadWire(BuildPayload(tag, f)) == Wire(tag, f)
  {
  }

  lemma BuildSecond(tag: byte, f: seq<Field>)
    requires 11 <= tag < 16 && PayloadKinds(tag).Some? && AllShaped(PayloadKinds(tag).value, f)
    ensures PayloadWire(BuildPayload(tag, f)) == Wire(tag, f)
  {
  }

  lemma BuildThird(tag: byte, f: seq<Field>)
    requires 16 <= tag < 22 && PayloadKinds(tag).Some? && AllShaped(PayloadKinds(tag).value, f)
    ensures PayloadWire(BuildPayload(tag, f)) == Wire(tag, f)
  {
  }

  lemma BuildLast(tag: byte, f: seq<Field>)
    requires 22 <= tag && PayloadKinds(tag).Some? && AllShaped(PayloadKinds(tag).value, f)
    ensures PayloadWire(BuildPayload(tag, f)) == Wire(tag, f)
  {
  }

  lemma BuildParts(tag: byte, f: seq<Field>)
    requires PayloadKinds(tag).Some? && AllShaped(PayloadKinds(tag).value, f)
    ensures PayloadWire(BuildPayload(tag, f)) == Wire(tag, f)
  {
    hide *;
    if tag < 11 {
      BuildFirst(tag, f);
    } else if tag < 16 {
      BuildSecond(tag, f);
    } else if tag < 22 {
      BuildThird(tag, f);
    } else {
      BuildLast(tag, f);
    }
  }

  // ------------------------------------------------------------ the payload codec

  ghost predicate PayloadFits(p: Payload)
  {
    var w := PayloadWire(p);
    PayloadShaped(p);
    AllFit(PayloadKinds(w.tag).value, w.fields)
  }

  function EncodePayload(p: Payload): Blob
  {
    PayloadShaped(p);
    var w := PayloadWire(p);
    [w.tag] + EncodeFields(PayloadKinds(w.tag).value, w.fields)
  }

  function DecodePayload(buf: Blob): Result<Payload>
  {
    if buf == [] then Err("truncated message")
    else
      match PayloadKinds(buf[0])
      case None => Err("unknown payload op")
      case Some(ks) =>
        match DecodeFields(ks, buf[1..])
        case Err(e) => Err(e)
        case Ok(r) =>
          if r.rest != [] then Err("trailing bytes after message")
          else
            FieldsSound(ks, buf[1..]);
            Ok(BuildPayload(buf[0], r.fields))
  }

  /** `peek_id`: the request id, read without decoding the rest. */
  function PeekId(buf: Blob): Option<nat>
  {
    if |buf| < 9 then None else Some(FromBigEndian(buf[1..9]))
  }

  /** A payload comes back from the wire exactly when it is within the limits. */
  lemma PayloadRoundTrip(p: Payload)
    ensures DecodePayload(EncodePayload(p)) == Ok(p) <==> PayloadFits(p)
  {
    hide *;
    var w, buf := PayloadWire(p), EncodePayload(p);
    PayloadShaped(p);
    var ks := PayloadKinds(w.tag).value;
    EncodesAs(p, w, ks);
    assert buf[0] == w.tag && buf[1..] == EncodeFields(ks, w.fields);
    if PayloadFits(p) {
      FieldsRoundTrip(ks, w.fields, []);
      assert EncodeFields(ks, w.fields) + [] == EncodeFields(ks, w.fields);
      PayloadBuilt(p, w);
      PayloadDecodes(buf, ks, w.fields);
    }
    if DecodePayload(buf) == Ok(p) {
      DecodedFits(buf);
    }
  }

  lemma PayloadDecodes(buf: Blob, ks: seq<Kind>, fs: seq<Field>)
    requires buf != [] && PayloadKinds(buf[0]) == Some(ks) && AllShaped(ks, fs)
    requires DecodeFields(ks, buf[1..]) == Ok(ParsedList(fs, []))
    ensures DecodePayload(buf) == Ok(BuildPayload(buf[0], fs))
  {
    hide PayloadKinds, DecodeFields, AllShaped, BuildPayload;
  }

  /** A decoded payload and the fields it was built from. */
  lemma DecodedParts(buf: Blob)
    requires DecodePayload(buf).Ok?
    ensures buf != [] && PayloadKinds(buf[0]).Some?
    ensures var ks := PayloadKinds(buf[0]).value; var p := DecodePayload(buf).value;
            && DecodeFields(ks, buf[1..]).Ok?
            && var r := DecodeFields(ks, buf[1..]).value;
               && r.rest == [] && AllShaped(ks, r.fields) && AllFit(ks, r.fields)
               && |buf| == 1 + |EncodeFields(ks, r.fields)|
               && (!HasBool(ks) ==> buf[1..] == EncodeFields(ks, r.fields) + [])
               && PayloadWire(p) == Wire(buf[0], r.fields)
  {
    hide DecodeFields, EncodeFields, PayloadKinds, PayloadWire, AllShaped, AllFit, BuildPayload;
    var ks := PayloadKinds(buf[0]).value;
    FieldsSound(ks, buf[1..]);
    BuildParts(buf[0], DecodeFields(ks, buf[1..]).value.fields);
  }

  lemma EncodesAs(p: Payload, w: Wire, ks: seq<Kind>)
    requires PayloadWire(p) == w && PayloadKinds(w.tag) == Some(ks) && AllShaped(ks, w.fields)
    ensures EncodePayload(p) == [w.tag] + EncodeFields(ks, w.fields)
    ensures PayloadFits(p) <==> AllFit(ks, w.fields)
  {
    hide PayloadKinds, PayloadWire, EncodeFields, AllShaped, AllFit;
  }

  /** Whatever decodes is within the limits and re-encodes to as many bytes; to
      the same bytes when its layout has no boolean. */
  lemma DecodedFits(buf: Blob)
    requires DecodePayload(buf).Ok?
    ensures var p := DecodePayload(buf).value;
            && PayloadFits(p)
            && |EncodePayload(p)| == |buf|
            && PayloadWire(p).tag == buf[0]
            && (!HasBool(PayloadKinds(buf[0]).value) ==> EncodePayload(p) == buf)
  {
    hide *;
    DecodedParts(buf);
    var ks := PayloadKinds(buf[0]).value;
    var fs := DecodeFields(ks, buf[1..]).value.fields;
    EncodesAs(DecodePayload(buf).value, Wire(buf[0], fs), ks);
    assert EncodeFields(ks, fs) + [] == EncodeFields(ks, fs);
    assert [buf[0]] + buf[1..] == buf;
  }

  /** Re-encoding what was decoded gives a message with the same meaning. */
  lemma PayloadReencodes(buf: Blob)
    requires DecodePayload(buf).Ok?
    ensures DecodePayload(EncodePayload(DecodePayload(buf).value)) == DecodePayload(buf)
  {
    hide *;
    DecodedFits(buf);
    PayloadRoundTrip(DecodePayload(buf).value);
  }

  lemma PayloadExtended(buf: Blob, ext: Blob)
    requires DecodePayload(buf).Ok? && ext != []
    ensures DecodePayload(buf + ext).Err?
  {
    var ks := PayloadKinds(buf[0]).value;
    hide DecodeFields, PayloadKinds, BuildPayload;
    assert (buf + ext)[0] == buf[0] && (buf + ext)[1..] == buf[1..] + ext;
    FieldsExtend(ks, buf[1..], ext);
    assert [] + ext == ext;
  }

  /** Re-encoding what was decoded changes nothing but boolean bytes, and those
      only from a value above one to one. */
  lemma ReencodingDiffers(buf: Blob)
    requires DecodePayload(buf).Ok?
    ensures var out := EncodePayload(DecodePayload(buf).value); var ks := PayloadKinds(buf[0]).value;
      && |out| == |buf|
      && forall i :: 0 <= i < |buf| && out[i] != buf[i] ==> i in BoolsIn(ks, buf[1..], 1) && buf[i] > 1 && out[i] == 1
  {
    hide *;
    DecodedParts(buf);
    var ks := PayloadKinds(buf[0]).value;
    var fs := DecodeFields(ks, buf[1..]).value.fields;
    EncodesAs(DecodePayload(buf).value, Wire(buf[0], fs), ks);
    FieldsDiffer(ks, buf[1..], 1);
    assert buf[1..][..|buf| - 1] == buf[1..];
    assert buf == [buf[0]] + buf[1..];
    OneMoreByte(buf[0], buf[1..], EncodeFields(ks, fs), BoolsIn(ks, buf[1..], 1));
    BoolBytes(buf, [buf[0]] + EncodeFields(ks, fs), BoolsIn(ks, buf[1..], 1));
  }

  lemma BoolBytes(a: Blob, b: Blob, bools: set<nat>)
    requires DiffersInBools(a, b, bools, 0)
    ensures |a| == |b| && forall i :: 0 <= i < |a| && b[i] != a[i] ==> i in bools && a[i] > 1 && b[i] == 1
  {
  }

  lemma OneMoreByte(tag: byte, a: Blob, b: Blob, bools: set<nat>)
    requires DiffersInBools(a, b, bools, 1)
    ensures DiffersInBools([tag] + a, [tag] + b, bools, 0)
  {
    forall i | 0 <= i < |a| + 1 && ([tag] + a)[i] != ([tag] + b)[i]
      ensures i in bools && ([tag] + a)[i] > 1 && ([tag] + b)[i] == 1
    {
      assert ([tag] + a)[i] == a[i - 1] && ([tag] + b)[i] == b[i - 1];
    }
  }

  /** No message is the beginning of another: cutting bytes off, or appending
      some, always makes the decoder refuse. */
  lemma PayloadPrefixFree(buf: Blob, k: nat, ext: Blob)
    requires DecodePayload(buf).Ok? && k < |buf| && ext != []
    ensures DecodePayload(buf[..k]).Err? && DecodePayload(buf + ext).Err?
  {
    hide *;
    PayloadExtended(buf, ext);
    assert buf[..k] + buf[k..] == buf;
    if DecodePayload(buf[..k]).Ok? {
      PayloadExtended(buf[..k], buf[k..]);
    }
  }

  /** The server may trust `peek_id` on every message that decodes. */
  lemma PeekIsId(buf: Blob)
    requires DecodePayload(buf).Ok?
    ensures PeekId(buf) == Some(DecodePayload(buf).value.id)
  {
    hide PayloadKinds, BuildPayload, PayloadWire, DecodeFields, AllShaped, AllFit, EncodeFields, DecodePayload;
    DecodedParts(buf);
    var ks := PayloadKinds(buf[0]).value;
    PayloadIdFirst(DecodePayload(buf).value);
    FirstField(ks, buf[1..]);
    assert buf[1..][..8] == buf[1..9];
  }

  lemma FirstField(ks: seq<Kind>, buf: Blob)
    requires ks != [] && ks[0] == U64 && DecodeFields(ks, buf).Ok?
    ensures |buf| >= 8 && DecodeFields(ks, buf).value.fields[0] == Num(FromBigEndian(buf[..8]))
  {
    hide FromBigEndian, ValidUtf8;
  }

  lemma PeekAfterEncode(p: Payload)
    requires PayloadFits(p)
    ensures PeekId(EncodePayload(p)) == Some(p.id)
  {
    hide *;
    PayloadRoundTrip(p);
    PeekIsId(EncodePayload(p));
  }

  // ------------------------------------------------------------------ frames

  const PEER: seq<Kind> := [U8, Str, Str, Str, Str, U64, U64]

  function PeersKinds(n: nat): (r: seq<Kind>)
    ensures |r| == 7 * n
  {
    if n == 0 then [] else PEER + PeersKinds(n - 1)
  }

  function PeerFields(p: PeerInfo): seq<Field>
  {
    [Num(p.role), Text(p.name), Text(p.version), Text(p.os), Text(p.arch), Num(p.connectedAtMs), Num(p.lastSeenMs)]
  }

  function PeersFields(ps: seq<PeerInfo>): (r: seq<Field>)
    ensures |r| == 7 * |ps|
  {
    if ps == [] then [] else PeerFields(ps[0]) + PeersFields(ps[1..])
  }

  /** Layout behind a frame tag; `peers` is the peer count of a `ListRes`. */
  function FrameKinds(tag: byte, peers: nat): Option<seq<Kind>>
  {
    match tag
    case 1 => Some([U8, Str, Str, Str, Str, U32])
    case 2 => Some([Str])
    case 3 => Some([U16, Str])
    case 4 => Some([U64])
    case 5 => Some([U64])
    case 6 => Some([Str, Blobs])
    case 7 => Some([U64, Blobs])
    case 8 => Some([U64, Blobs])
    case 9 => Some([U64])
    case 10 => Some([])
    case 11 => Some([U16] + PeersKinds(peers))
    case _ => None
  }

  function FrameWire(f: Frame): Wire
  {
    match f
    case Hello(role, name, version, os, arch, pid) =>
      Wire(1, [Num(role), Text(name), Text(version), Text(os), Text(arch), Num(pid)])
    case HelloOk(version) => Wire(2, [Text(version)])
    case ErrorFrame(code, message) => Wire(3, [Num(code), Text(message)])
    case Ping(nonce) => Wire(4, [Num(nonce)])
    case Pong(nonce) => Wire(5, [Num(nonce)])
    case RelayReq(target, payload) => Wire(6, [Text(target), Text(payload)])
    case RelayDeliver(route, payload) => Wire(7, [Num(route), Text(payload)])
    case RelayResult(route, payload) => Wire(8, [Num(route), Text(payload)])
    case RouteCancel(route) => Wire(9, [Num(route)])
    case ListReq => Wire(10, [])
    case ListRes(peers) => Wire(11, [Num(|peers|)] + PeersFields(peers))
  }

  function PeerCount(f: Frame): nat
  {
    if f.ListRes? then |f.peers| else 0
  }

  function KindsOf(f: Frame): seq<Kind>
  {
    FrameKinds(FrameWire(f).tag, PeerCount(f)).value
  }

  lemma {:induction false} PeersShaped(ps: seq<PeerInfo>)
    ensures AllShaped(PeersKinds(|ps|), PeersFields(ps))
  {
    if ps != [] {
      PeersShaped(ps[1..]);
      ConcatShaped(PEER, PeerFields(ps[0]), PeersKinds(|ps| - 1), PeersFields(ps[1..]));
    }
  }

  lemma ConcatShaped(ks: seq<Kind>, fs: seq<Field>, ks': seq<Kind>, fs': seq<Field>)
    requires AllShaped(ks, fs) && AllShaped(ks', fs')
    ensures AllShaped(ks + ks', fs + fs')
  {
  }

  lemma FrameShaped(f: Frame)
    ensures AllShaped(KindsOf(f), FrameWire(f).fields)
  {
    if f.ListRes? {
      PeersShaped(f.peers);
      ConcatShaped([U16], [Num(|f.peers|)], PeersKinds(|f.peers|), PeersFields(f.peers));
    }
  }

  predicate StartsWithPeer(fs: seq<Field>)
  {
    |fs| >= 7 && fs[0].Num? && fs[1].Text? && fs[2].Text? && fs[3].Text? && fs[4].Text? && fs[5].Num? && fs[6].Num?
  }

  function BuildPeer(fs: seq<Field>): (p: PeerInfo)
    requires StartsWithPeer(fs)
    ensures PeerFields(p) == fs[..7]
  {
    PeerInfo(fs[0].n, fs[1].s, fs[2].s, fs[3].s, fs[4].s, fs[5].n, fs[6].n)
  }

  function BuildPeers(fs: seq<Field>, n: nat): (r: seq<PeerInfo>)
    requires AllShaped(PeersKinds(n), fs)
    ensures |r| == n
  {
    if n == 0 then []
    else
      PeersSplit(fs, n);
      [BuildPeer(fs)] + BuildPeers(fs[7..], n - 1)
  }

  lemma PeersSplit(fs: seq<Field>, n: nat)
    requires n > 0 && AllShaped(PeersKinds(n), fs)
    ensures AllShaped(PEER, fs[..7]) && AllShaped(PeersKinds(n - 1), fs[7..])
    ensures StartsWithPeer(fs)
  {
    var ks := PeersKinds(n);
    assert forall i :: 0 <= i < 7 ==> ks[i] == PEER[i];
    assert ks[..7] == PEER && ks[7..] == PeersKinds(n - 1);
    assert forall i :: 0 <= i < |ks| ==> Shaped(ks[i], fs[i]);
    assert Shaped(ks[0], fs[0]) && Shaped(ks[1], fs[1]) && Shaped(ks[2], fs[2]) && Shaped(ks[3], fs[3]);
    assert Shaped(ks[4], fs[4]) && Shaped(ks[5], fs[5]) && Shaped(ks[6], fs[6]);
  }

  lemma {:induction false} PeersRebuild(fs: seq<Field>, n: nat)
    requires AllShaped(PeersKinds(n), fs)
    ensures PeersFields(BuildPeers(fs, n)) == fs
  {
    if n > 0 {
      PeersSplit(fs, n);
      hide PeersKinds, AllShaped, BuildPeer, StartsWithPeer;
      PeersRebuild(fs[7..], n - 1);
      ConsPeers(BuildPeer(fs), BuildPeers(fs[7..], n - 1));
      assert fs == fs[..7] + fs[7..];
    }
  }

  lemma ConsPeers(p: PeerInfo, ps: seq<PeerInfo>)
    ensures PeersFields([p] + ps) == PeerFields(p) + PeersFields(ps)
  {
    hide PeerFields;
    assert ([p] + ps)[1..] == ps;
  }

  function BuildFrame(tag: byte, peers: nat, f: seq<Field>): Frame
    requires FrameKinds(tag, peers).Some? && AllShaped(FrameKinds(tag, peers).value, f)
    requires tag == 11 ==> f[0].Num?
  {
    var ks := FrameKinds(tag, peers).value;
    assert forall i :: 0 <= i < |ks| ==> Shaped(ks[i], f[i]);
    match tag
    case 1 => Hello(f[0].n, f[1].s, f[2].s, f[3].s, f[4].s, f[5].n)
    case 2 => HelloOk(f[0].s)
    case 3 => ErrorFrame(f[0].n, f[1].s)
    case 4 => Ping(f[0].n)
    case 5 => Pong(f[0].n)
    case 6 => RelayReq(f[0].s, f[1].s)
    case 7 => RelayDeliver(f[0].n, f[1].s)
    case 8 => RelayResult(f[0].n, f[1].s)
    case 9 => RouteCancel(f[0].n)
    case 10 => ListReq
    case 11 => TailShaped(peers, f); ListRes(BuildPeers(f[1..], peers))
  }

  lemma TailShaped(peers: nat, f: seq<Field>)
    requires AllShaped([U16] + PeersKinds(peers), f)
    ensures AllShaped(PeersKinds(peers), f[1..])
  {
    var ks := [U16] + PeersKinds(peers);
    assert forall i :: 0 <= i < |ks| - 1 ==> PeersKinds(peers)[i] == ks[i + 1];
  }

  /** The peer count a decoder reads before it knows the layout. */
  function CountIn(buf: Blob): nat
  {
    if |buf| >= 3 then FromBigEndian(buf[1..3]) else 0
  }

  ghost predicate FrameFits(f: Frame)
  {
    AllFit(KindsOf(f), FrameWire(f).fields)
  }

  function EncodeFrame(f: Frame): Blob
  {
    FrameShaped(f);
    [FrameWire(f).tag] + EncodeFields(KindsOf(f), FrameWire(f).fields)
  }

  function DecodeFrame(buf: Blob): Result<Frame>
  {
    if buf == [] then Err("truncated message")
    else
      match FrameKinds(buf[0], CountIn(buf))
      case None => Err("unknown frame tag")
      case Some(ks) =>
        match DecodeFields(ks, buf[1..])
        case Err(e) => Err(e)
        case Ok(r) =>
          if r.rest != [] then Err("trailing bytes after message")
          else
            FieldsSound(ks, buf[1..]);
            ListTagFirst(buf[0], CountIn(buf), r.fields);
            Ok(BuildFrame(buf[0], CountIn(buf), r.fields))
  }

  lemma ListTagFirst(tag: byte, peers: nat, f: seq<Field>)
    requires FrameKinds(tag, peers).Some? && AllShaped(FrameKinds(tag, peers).value, f)
    ensures tag == 11 ==> f != [] && f[0].Num?
  {
    if tag == 11 {
      var ks := FrameKinds(tag, peers).value;
      assert ks == [U16] + PeersKinds(peers) && Shaped(ks[0], f[0]);
    }
  }

  lemma {:induction false} PeersBuilt(ps: seq<PeerInfo>)
    ensures AllShaped(PeersKinds(|ps|), PeersFields(ps))
    ensures BuildPeers(PeersFields(ps), |ps|) == ps
  {
    PeersShaped(ps);
    if ps != [] {
      PeersBuilt(ps[1..]);
      var fs := PeersFields(ps);
      assert fs[..7] == PeerFields(ps[0]) && fs[7..] == PeersFields(ps[1..]);
      PeersSplit(fs, |ps|);
      hide PeersKinds, PeersFields, AllShaped, BuildPeer, StartsWithPeer;
      SamePeer(BuildPeer(fs), ps[0]);
    }
  }

  lemma SamePeer(p: PeerInfo, q: PeerInfo)
    requires PeerFields(p) == PeerFields(q)
    ensures p == q
  {
    var a, b := PeerFields(p), PeerFields(q);
    assert a[0] == b[0] && a[1] == b[1] && a[2] == b[2] && a[3] == b[3] && a[4] == b[4] && a[5] == b[5] && a[6] == b[6];
  }

  lemma FrameBuilt(f: Frame)
    ensures AllShaped(KindsOf(f), FrameWire(f).fields)
    ensures FrameWire(f).tag == 11 ==> FrameWire(f).fields[0] == Num(PeerCount(f))
    ensures BuildFrame(FrameWire(f).tag, PeerCount(f), FrameWire(f).fields) == f
  {
    FrameShaped(f);
    if f.ListRes? {
      PeersBuilt(f.peers);
      hide PeersFields, AllShaped, PeersKinds, BuildPeers;
      assert FrameWire(f).fields[1..] == PeersFields(f.peers);
    } else {
      hide PeersFields, AllShaped, PeersKinds, BuildPeers;
    }
  }

  /** What a frame decodes to has the layout it was read with. */
  lemma BuildList(peers: nat, f: seq<Field>)
    requires AllShaped([U16] + PeersKinds(peers), f) && f[0].Num?
    ensures FrameKinds(11, peers) == Some([U16] + PeersKinds(peers)) && AllShaped(PeersKinds(peers), f[1..])
    ensures BuildFrame(11, peers, f) == ListRes(BuildPeers(f[1..], peers))
  {
    hide PeersKinds, BuildPeers, AllShaped;
    TailShaped(peers, f);
  }

  lemma ListWire(ps: seq<PeerInfo>)
    ensures FrameWire(ListRes(ps)) == Wire(11, [Num(|ps|)] + PeersFields(ps))
    ensures KindsOf(ListRes(ps)) == [U16] + PeersKinds(|ps|)
  {
    hide PeersKinds, PeersFields, FrameWire, FrameKinds;
    ListFields(ps);
    ListKinds(|ps|);
  }

  lemma ListFields(ps: seq<PeerInfo>)
    ensures FrameWire(ListRes(ps)) == Wire(11, [Num(|ps|)] + PeersFields(ps))
  {
    hide PeersFields;
  }

  lemma ListKinds(n: nat)
    ensures FrameKinds(11, n) == Some([U16] + PeersKinds(n))
  {
    hide PeersKinds;
  }

  lemma ListParts(peers: nat, f: seq<Field>)
    requires AllShaped([U16] + PeersKinds(peers), f) && f[0] == Num(peers)
    ensures FrameKinds(11, peers) == Some([U16] + PeersKinds(peers))
    ensures var g := BuildFrame(11, peers, f); FrameWire(g) == Wire(11, f) && KindsOf(g) == [U16] + PeersKinds(peers)
  {
    hide *;
    ShapedNotEmpty(peers, f);
    BuildList(peers, f);
    PeersRebuild(f[1..], peers);
    ListWire(BuildPeers(f[1..], peers));
    assert f == [f[0]] + f[1..];
  }

  lemma ShapedNotEmpty(peers: nat, f: seq<Field>)
    requires AllShaped([U16] + PeersKinds(peers), f)
    ensures f != []
  {
  }

  lemma PlainParts(tag: byte, peers: nat, f: seq<Field>)
    requires tag != 11 && FrameKinds(tag, peers).Some? && AllShaped(FrameKinds(tag, peers).value, f)
    ensures var g := BuildFrame(tag, peers, f);
            FrameWire(g) == Wire(tag, f) && KindsOf(g) == FrameKinds(tag, peers).value
  {
    hide BuildPeers, PeersKinds;
  }

  lemma FrameParts(tag: byte, peers: nat, f: seq<Field>)
    requires FrameKinds(tag, peers).Some? && AllShaped(FrameKinds(tag, peers).value, f)
    requires tag == 11 ==> f[0] == Num(peers)
    ensures var g := BuildFrame(tag, peers, f);
            FrameWire(g) == Wire(tag, f) && KindsOf(g) == FrameKinds(tag, peers).value
  {
    hide PeersKinds, BuildFrame, FrameWire, KindsOf, AllShaped;
    if tag == 11 {
      ListParts(peers, f);
    } else {
      PlainParts(tag, peers, f);
    }
  }

  lemma {:induction false} FrameCount(f: Frame, buf: Blob)
    requires FrameFits(f) && buf == EncodeFrame(f) && f.ListRes?
    ensures CountIn(buf) == |f.peers|
  {
    FrameShaped(f);
    var ks, fs := KindsOf(f), FrameWire(f).fields;
    assert ks[0] == U16 && fs[0] == Num(|f.peers|) && FieldFits(ks[0], fs[0]);
    var rest := EncodeFields(ks[1..], fs[1..]);
    assert buf == [11] + (ToBigEndian(|f.peers|, 2) + rest);
    assert buf[1..3] == ToBigEndian(|f.peers|, 2);
    BigEndianRoundTrip(|f.peers|, 2);
  }

  /** A frame comes back from the wire exactly when it is within the limits. */
  lemma FrameRoundTrip(f: Frame)
    ensures DecodeFrame(EncodeFrame(f)) == Ok(f) <==> FrameFits(f)
  {
    hide *;
    var w, ks, buf := FrameWire(f), KindsOf(f), EncodeFrame(f);
    FrameEncodes(f);
    assert buf[0] == w.tag && buf[1..] == EncodeFields(ks, w.fields);
    if FrameFits(f) {
      FieldsRoundTrip(ks, w.fields, []);
      assert EncodeFields(ks, w.fields) + [] == EncodeFields(ks, w.fields);
      if f.ListRes? {
        FrameCount(f, buf);
      }
      FrameBuiltAnyCount(f, CountIn(buf));
      FrameDecodes(buf, ks, w.fields);
    }
    if DecodeFrame(buf) == Ok(f) {
      FrameIsCanonical(buf);
    }
  }

  lemma FrameEncodes(f: Frame)
    ensures AllShaped(KindsOf(f), FrameWire(f).fields)
    ensures EncodeFrame(f) == [FrameWire(f).tag] + EncodeFields(KindsOf(f), FrameWire(f).fields)
    ensures FrameFits(f) <==> AllFit(KindsOf(f), FrameWire(f).fields)
  {
    hide KindsOf, FrameWire, EncodeFields, AllShaped, AllFit;
    FrameShaped(f);
  }

  lemma FrameDecodes(buf: Blob, ks: seq<Kind>, fs: seq<Field>)
    requires buf != [] && FrameKinds(buf[0], CountIn(buf)) == Some(ks)
    requires DecodeFields(ks, buf[1..]) == Ok(ParsedList(fs, [])) && AllShaped(ks, fs) && (buf[0] == 11 ==> fs[0].Num?)
    ensures DecodeFrame(buf) == Ok(BuildFrame(buf[0], CountIn(buf), fs))
  {
    hide FrameKinds, CountIn, DecodeFields, AllShaped, BuildFrame;
  }

  /** The two ways in which the decoding of a frame can be read off its fields. */
  lemma FrameOkParts(buf: Blob)
    requires DecodeFrame(buf).Ok?
    ensures buf != [] && FrameKinds(buf[0], CountIn(buf)).Some?
    ensures var d := DecodeFields(FrameKinds(buf[0], CountIn(buf)).value, buf[1..]); d.Ok? && d.value.rest == []
  {
    hide FrameKinds, CountIn, DecodeFields, AllShaped, BuildFrame;
  }

  lemma FrameTrailing(buf: Blob, ks: seq<Kind>, r: ParsedList)
    requires buf != [] && FrameKinds(buf[0], CountIn(buf)) == Some(ks)
    requires DecodeFields(ks, buf[1..]) == Ok(r) && r.rest != []
    ensures DecodeFrame(buf).Err?
  {
    hide FrameKinds, CountIn, DecodeFields, AllShaped, BuildFrame;
  }

  lemma FrameBuiltAnyCount(f: Frame, n: nat)
    requires f.ListRes? ==> n == |f.peers|
    ensures FrameKinds(FrameWire(f).tag, n) == Some(KindsOf(f))
    ensures AllShaped(KindsOf(f), FrameWire(f).fields)
    ensures FrameWire(f).tag == 11 ==> FrameWire(f).fields[0].Num?
    ensures BuildFrame(FrameWire(f).tag, n, FrameWire(f).fields) == f
  {
    FrameBuilt(f);
    hide BuildPeers, PeersFields, PeersKinds, AllShaped;
  }

  lemma FrameKindsByTag(tag: byte, n: nat, m: nat)
    requires tag != 11
    ensures FrameKinds(tag, n) == FrameKinds(tag, m)
  {
  }

  lemma {:induction false} NoBoolInPeers(n: nat)
    ensures !HasBool(PeersKinds(n))
  {
    if n > 0 {
      NoBoolInPeers(n - 1);
    }
  }

  lemma NoBoolInFrames(tag: byte, peers: nat)
    requires FrameKinds(tag, peers).Some?
    ensures !HasBool(FrameKinds(tag, peers).value)
  {
    NoBoolInPeers(peers);
  }

  lemma CountIsFirst(ks: seq<Kind>, buf: Blob)
    requires ks != [] && ks[0] == U16 && DecodeFields(ks, buf).Ok?
    ensures |buf| >= 2 && DecodeFields(ks, buf).value.fields[0] == Num(FromBigEndian(buf[..2]))
  {
    hide FromBigEndian, ValidUtf8;
  }

  lemma FrameReadsBack(buf: Blob, ks: seq<Kind>, fs: seq<Field>)
    requires buf != [] && FrameKinds(buf[0], CountIn(buf)) == Some(ks)
    requires DecodeFields(ks, buf[1..]) == Ok(ParsedList(fs, [])) && AllShaped(ks, fs)
    ensures buf[0] == 11 ==> fs[0] == Num(CountIn(buf))
    ensures var f := BuildFrame(buf[0], CountIn(buf), fs); FrameWire(f) == Wire(buf[0], fs) && KindsOf(f) == ks
  {
    hide DecodeFields, AllShaped, BuildFrame, FromBigEndian;
    if buf[0] == 11 {
      CountIsFirst(ks, buf[1..]);
      assert buf[1..][..2] == buf[1..3];
    }
    FrameParts(buf[0], CountIn(buf), fs);
  }

  /** Every accepted frame is the encoding of the frame it decodes to, which is
      within the limits: frames have exactly one wire form. */
  lemma FrameIsCanonical(buf: Blob)
    requires DecodeFrame(buf).Ok?
    ensures FrameFits(DecodeFrame(buf).value) && EncodeFrame(DecodeFrame(buf).value) == buf
  {
    hide FrameKinds, DecodeFields, AllShaped, BuildFrame, FrameWire, KindsOf, EncodeFields, CountIn, AllFit;
    var ks := FrameKinds(buf[0], CountIn(buf)).value;
    var r := DecodeFields(ks, buf[1..]).value;
    FieldsSound(ks, buf[1..]);
    NoBoolInFrames(buf[0], CountIn(buf));
    FrameReadsBack(buf, ks, r.fields);
    assert EncodeFields(ks, r.fields) + [] == EncodeFields(ks, r.fields);
    assert [buf[0]] + buf[1..] == buf;
  }

  /** Frames are prefix free as well. */
  lemma FramePrefixFree(buf: Blob, k: nat, ext: Blob)
    requires DecodeFrame(buf).Ok? && k < |buf| && ext != []
    ensures DecodeFrame(buf[..k]).Err? && DecodeFrame(buf + ext).Err?
  {
    hide *;
    FrameExtended(buf, ext);
    assert buf[..k] + buf[k..] == buf;
    if DecodeFrame(buf[..k]).Ok? {
      FrameExtended(buf[..k], buf[k..]);
    }
  }

  lemma FrameExtended(buf: Blob, ext: Blob)
    requires DecodeFrame(buf).Ok? && ext != []
    ensures DecodeFrame(buf + ext).Err?
  {
    hide *;
    FrameOkParts(buf);
    var ks := FrameKinds(buf[0], CountIn(buf)).value;
    assert (buf + ext)[0] == buf[0] && (buf + ext)[1..] == buf[1..] + ext;
    FieldsExtend(ks, buf[1..], ext);
    SameKinds(buf, ext, ks);
    assert [] + ext == ext;
    FrameTrailing(buf + ext, ks, DecodeFields(ks, (buf + ext)[1..]).value);
  }

  lemma SameKinds(buf: Blob, ext: Blob, ks: seq<Kind>)
    requires buf != [] && FrameKinds(buf[0], CountIn(buf)) == Some(ks) && DecodeFields(ks, buf[1..]).Ok?
    ensures FrameKinds((buf + ext)[0], CountIn(buf + ext)) == Some(ks)
  {
    hide DecodeFields, FromBigEndian;
    if buf[0] == 11 {
      assert ks[0] == U16;
      CountIsFirst(ks, buf[1..]);
      assert (buf + ext)[1..3] == buf[1..3];
    } else {
      FrameKindsByTag(buf[0], CountIn(buf), CountIn(buf + ext));
    }
  }
}
