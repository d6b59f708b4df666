/** The wire format byte by byte: which tag a message has, and in which order
    and width its parts follow. */
module WireLayout {
  import opened Bytes
  import opened Payloads
  import opened Codec
  import opened CodecBuffers
  import opened Utf8

  // ---------------------------------------------------------------- the parts

  function N1(v: nat): Blob
  {
    [v % 0x100]
  }

  function N2(v: nat): Blob
  {
    [v / 0x100 % 0x100, v % 0x100]
  }

  function N4(v: nat): Blob
  {
    [v / 0x100_0000 % 0x100, v / 0x1_0000 % 0x100, v / 0x100 % 0x100, v % 0x100]
  }

  function N8(v: nat): Blob
  {
    N4(v / 0x1_0000_0000) + N4(v)
  }

  /** Two's complement. */
  function I4(i: int): Blob
  {
    N4(i % 0x1_0000_0000)
  }

  function B1(b: bool): Blob
  {
    [if b then 1 else 0]
  }

  /** A length of four bytes and as many bytes. */
  function T(s: Blob): Blob
  {
    N4(|s|) + s
  }

  lemma BigEndianIs(v: nat)
    ensures ToBigEndian(v, 1) == N1(v) && ToBigEndian(v, 2) == N2(v) && ToBigEndian(v, 4) == N4(v)
  {
    assert ToBigEndian(v / 0x100, 1) == [v / 0x100 % 0x100];
    assert v / 0x100 / 0x100 == v / 0x1_0000 && v / 0x1_0000 / 0x100 == v / 0x100_0000;
    assert ToBigEndian(v / 0x1_0000, 2) == [v / 0x100_0000 % 0x100, v / 0x1_0000 % 0x100];
    assert ToBigEndian(v / 0x100, 3) == ToBigEndian(v / 0x1_0000, 2) + [v / 0x100 % 0x100];
  }

  lemma BigEndianPeel(v: nat, k: nat)
    requires k >= 2
    ensures ToBigEndian(v, k) == ToBigEndian(v / 0x1_0000, k - 2) + [v / 0x100 % 0x100, v % 0x100]
  {
    assert v / 0x100 / 0x100 == v / 0x1_0000;
    assert ToBigEndian(v, k) == ToBigEndian(v / 0x100, k - 1) + [v % 0x100];
    assert ToBigEndian(v / 0x100, k - 1) == ToBigEndian(v / 0x1_0000, k - 2) + [v / 0x100 % 0x100];
  }

  lemma BigEndian8(v: nat)
    ensures ToBigEndian(v, 8) == N8(v)
  {
    hide ToBigEndian;
    var w := v / 0x1_0000;
    assert w / 0x1_0000 == v / 0x1_0000_0000 && w / 0x100 == v / 0x100_0000;
    BigEndianPeel(v, 8);
    BigEndianPeel(w, 6);
    BigEndianIs(v / 0x1_0000_0000);
  }

  /** Every field has the bytes one expects. */
  lemma FieldBytes()
    ensures forall v :: EncodeField(U8, Num(v)) == N1(v) && EncodeField(U16, Num(v)) == N2(v)
    ensures forall v :: EncodeField(U32, Num(v)) == N4(v) && EncodeField(U64, Num(v)) == N8(v)
    ensures forall i :: EncodeField(I32, Int(i)) == I4(i)
    ensures forall b :: EncodeField(Bool, Flag(b)) == B1(b)
    ensures forall s :: EncodeField(Str, Text(s)) == T(s) && EncodeField(Blobs, Text(s)) == T(s)
    ensures forall d :: EncodeField(Fixed32, Hash32(d)) == d
  {
    hide N1, N2, N4, N8, ToBigEndian;
    forall v: nat
      ensures ToBigEndian(v, 1) == N1(v) && ToBigEndian(v, 2) == N2(v)
      ensures ToBigEndian(v, 4) == N4(v) && ToBigEndian(v, 8) == N8(v)
    {
      BigEndianIs(v);
      BigEndian8(v);
    }
  }

  // ---------------------------------------------------------------- payloads

  function PayloadTag(p: Payload): byte
  {
    match p
    case Exec(_, _, _, _, _) => 1
    case ExecOut(_, _, _) => 2
    case ExecEnd(_, _, _, _) => 3
    case Error(_, _, _) => 4
    case PushBegin(_, _, _, _, _, _) => 10
    case PushReady(_, _) => 11
    case Mkdir(_, _, _) => 12
    case FileBegin(_, _, _, _, _, _) => 13
    case Data(_, _) => 14
    case FileEnd(_, _) => 15
    case Symlink(_, _, _, _) => 16
    case PushEnd(_) => 17
    case TransferDone(_, _, _, _, _, _) => 18
    case ManifestEnd(_, _) => 19
    case PullBegin(_, _) => 20
    case Entry(_, _, _, _, _, _, _, _) => 21
    case FilePlan(_, _, _, _, _) => 22
    case FileSigs(_, _, _, _) => 23
    case Copy(_, _, _) => 24
    case FileStart(_, _) => 25
    case PlanEnd(_) => 26
    case Shutdown(_, _) => 30
    case Bye(_, _, _) => 31
  }

  function PayloadBody(p: Payload): Blob
  {
    match p
    case Exec(id, timeout, cwd, raw, command) => N8(id) + N8(timeout) + T(cwd) + B1(raw) + T(command)
    case ExecOut(id, stream, data) => N8(id) + N1(stream) + T(data)
    case ExecEnd(id, rc, timedOut, reason) => N8(id) + I4(rc) + B1(timedOut) + T(reason)
    case Error(id, code, message) => N8(id) + N2(code) + T(message)
    case PushBegin(id, path, name, isDir, files, bytes) =>
      N8(id) + T(path) + T(name) + B1(isDir) + N8(files) + N8(bytes)
    case PushReady(id, root) => N8(id) + T(root)
    case Mkdir(id, rel, mode) => N8(id) + T(rel) + N4(mode)
    case FileBegin(id, n, rel, size, mode, sha) => N8(id) + N8(n) + T(rel) + N8(size) + N4(mode) + sha
    case Data(id, data) => N8(id) + T(data)
    case FileEnd(id, sha) => N8(id) + sha
    case Symlink(id, rel, target, mode) => N8(id) + T(rel) + T(target) + N4(mode)
    case PushEnd(id) => N8(id)
    case TransferDone(id, ok, error, path, bytes, sha) => N8(id) + B1(ok) + T(error) + T(path) + N8(bytes) + sha
    case ManifestEnd(id, files) => N8(id) + N8(files)
    case PullBegin(id, path) => N8(id) + T(path)
    case Entry(id, n, rel, kind, size, mode, target, sha) =>
      N8(id) + N8(n) + T(rel) + N1(kind) + N8(size) + N4(mode) + T(target) + sha
    case FilePlan(id, n, action, blockSize, blocks) => N8(id) + N8(n) + N1(action) + N4(blockSize) + N8(blocks)
    case FileSigs(id, n, first, sigs) => N8(id) + N8(n) + N8(first) + T(sigs)
    case Copy(id, start, len) => N8(id) + N8(start) + N8(len)
    case FileStart(id, n) => N8(id) + N8(n)
    case PlanEnd(id) => N8(id)
    case Shutdown(id, reason) => N8(id) + T(reason)
    case Bye(id, code, reason) => N8(id) + I4(code) + T(reason)
  }

  lemma Sum1(k0: Kind, f0: Field)
    requires Shaped(k0, f0)
    ensures AllShaped([k0], [f0])
    ensures EncodeFields([k0], [f0]) == EncodeField(k0, f0)
  {
    hide EncodeField, Shaped;
    EncodeNothing([k0], [f0]);
    assert [k0][1..] == [] && [f0][1..] == [];
    assert EncodeFields([], []) == [];
    assert EncodeField(k0, f0) + [] == EncodeField(k0, f0);
  }

  lemma Sum2(k0: Kind, f0: Field, k1: Kind, f1: Field)
    requires Shaped(k0, f0) && Shaped(k1, f1)
    ensures AllShaped([k0, k1], [f0, f1])
    ensures EncodeFields([k0, k1], [f0, f1]) == EncodeField(k0, f0) + EncodeField(k1, f1)
  {
    hide EncodeField, EncodeFields, Shaped;
    Sum1(k0, f0);
    EncodeSnoc([k0], [f0], k1, f1);
    assert [k0] + [k1] == [k0, k1];
    assert [f0] + [f1] == [f0, f1];
  }

  lemma Sum3(k0: Kind, f0: Field, k1: Kind, f1: Field, k2: Kind, f2: Field)
    requires Shaped(k0, f0) && Shaped(k1, f1) && Shaped(k2, f2)
    ensures AllShaped([k0, k1, k2], [f0, f1, f2])
    ensures EncodeFields([k0, k1, k2], [f0, f1, f2]) == EncodeField(k0, f0) + EncodeField(k1, f1) + EncodeField(k2,
            f2)
  {
    hide EncodeField, EncodeFields, Shaped;
    Sum2(k0, f0, k1, f1);
    EncodeSnoc([k0, k1], [f0, f1], k2, f2);
    assert [k0, k1] + [k2] == [k0, k1, k2];
    assert [f0, f1] + [f2] == [f0, f1, f2];
  }

  lemma Sum4(k0: Kind, f0: Field, k1: Kind, f1: Field, k2: Kind, f2: Field, k3: Kind, f3: Field)
    requires Shaped(k0, f0) && Shaped(k1, f1) && Shaped(k2, f2) && Shaped(k3, f3)
    ensures AllShaped([k0, k1, k2, k3], [f0, f1, f2, f3])
    ensures EncodeFields([k0, k1, k2, k3], [f0, f1, f2, f3]) == EncodeField(k0, f0) + EncodeField(k1, f1) +
            EncodeField(k2, f2) + EncodeField(k3, f3)
  {
    hide EncodeField, EncodeFields, Shaped;
    Sum3(k0, f0, k1, f1, k2, f2);
    EncodeSnoc([k0, k1, k2], [f0, f1, f2], k3, f3);
    assert [k0, k1, k2] + [k3] == [k0, k1, k2, k3];
    assert [f0, f1, f2] + [f3] == [f0, f1, f2, f3];
  }

  lemma Sum5(k0: Kind, f0: Field, k1: Kind, f1: Field, k2: Kind, f2: Field, k3: Kind, f3: Field, k4: Kind, f4: Field)
    requires Shaped(k0, f0) && Shaped(k1, f1) && Shaped(k2, f2) && Shaped(k3, f3) && Shaped(k4, f4)
    ensures AllShaped([k0, k1, k2, k3, k4], [f0, f1, f2, f3, f4])
    ensures EncodeFields([k0, k1, k2, k3, k4], [f0, f1, f2, f3, f4]) == EncodeField(k0, f0) + EncodeField(k1, f1) +
            EncodeField(k2, f2) + EncodeField(k3, f3) + EncodeField(k4, f4)
  {
    hide EncodeField, EncodeFields, Shaped;
    Sum4(k0, f0, k1, f1, k2, f2, k3, f3);
    EncodeSnoc([k0, k1, k2, k3], [f0, f1, f2, f3], k4, f4);
    assert [k0, k1, k2, k3] + [k4] == [k0, k1, k2, k3, k4];
    assert [f0, f1, f2, f3] + [f4] == [f0, f1, f2, f3, f4];
  }

  lemma Sum6(k0: Kind, f0: Field, k1: Kind, f1: Field, k2: Kind, f2: Field, k3: Kind, f3: Field, k4: Kind, f4: Field,
             k5: Kind, f5: Field)
    requires Shaped(k0, f0) && Shaped(k1, f1) && Shaped(k2, f2) && Shaped(k3, f3) && Shaped(k4, f4) && Shaped(k5, f5)
    ensures AllShaped([k0, k1, k2, k3, k4, k5], [f0, f1, f2, f3, f4, f5])
    ensures EncodeFields([k0, k1, k2, k3, k4, k5], [f0, f1, f2, f3, f4, f5]) == EncodeField(k0, f0) + EncodeField(k1,
            f1) + EncodeField(k2, f2) + EncodeField(k3, f3) + EncodeField(k4, f4) + EncodeField(k5, f5)
  {
    hide EncodeField, EncodeFields, Shaped;
    Sum5(k0, f0, k1, f1, k2, f2, k3, f3, k4, f4);
    EncodeSnoc([k0, k1, k2, k3, k4], [f0, f1, f2, f3, f4], k5, f5);
    assert [k0, k1, k2, k3, k4] + [k5] == [k0, k1, k2, k3, k4, k5];
    assert [f0, f1, f2, f3, f4] + [f5] == [f0, f1, f2, f3, f4, f5];
  }

  lemma Sum7(k0: Kind, f0: Field, k1: Kind, f1: Field, k2: Kind, f2: Field, k3: Kind, f3: Field, k4: Kind, f4: Field,
             k5: Kind, f5: Field, k6: Kind, f6: Field)
    requires Shaped(k0, f0) && Shaped(k1, f1) && Shaped(k2, f2) && Shaped(k3, f3) && Shaped(k4, f4) && Shaped(k5, f5)
             && Shaped(k6, f6)
    ensures AllShaped([k0, k1, k2, k3, k4, k5, k6], [f0, f1, f2, f3, f4, f5, f6])
    ensures EncodeFields([k0, k1, k2, k3, k4, k5, k6], [f0, f1, f2, f3, f4, f5, f6]) == EncodeField(k0, f0) +
            EncodeField(k1, f1) + EncodeField(k2, f2) + EncodeField(k3, f3) + EncodeField(k4, f4) +
            EncodeField(k5, f5) + EncodeField(k6, f6)
  {
    hide EncodeField, EncodeFields, Shaped;
    Sum6(k0, f0, k1, f1, k2, f2, k3, f3, k4, f4, k5, f5);
    EncodeSnoc([k0, k1, k2, k3, k4, k5], [f0, f1, f2, f3, f4, f5], k6, f6);
    assert [k0, k1, k2, k3, k4, k5] + [k6] == [k0, k1, k2, k3, k4, k5, k6];
    assert [f0, f1, f2, f3, f4, f5] + [f6] == [f0, f1, f2, f3, f4, f5, f6];
  }

  lemma Sum8(k0: Kind, f0: Field, k1: Kind, f1: Field, k2: Kind, f2: Field, k3: Kind, f3: Field, k4: Kind, f4: Field,
             k5: Kind, f5: Field, k6: Kind, f6: Field, k7: Kind, f7: Field)
    requires Shaped(k0, f0) && Shaped(k1, f1) && Shaped(k2, f2) && Shaped(k3, f3) && Shaped(k4, f4) && Shaped(k5, f5)
             && Shaped(k6, f6) && Shaped(k7, f7)
    ensures AllShaped([k0, k1, k2, k3, k4, k5, k6, k7], [f0, f1, f2, f3, f4, f5, f6, f7])
    ensures EncodeFields([k0, k1, k2, k3, k4, k5, k6, k7], [f0, f1, f2, f3, f4, f5, f6, f7]) == EncodeField(k0, f0) +
            EncodeField(k1, f1) + EncodeField(k2, f2) + EncodeField(k3, f3) + EncodeField(k4, f4) +
            EncodeField(k5, f5) + EncodeField(k6, f6) + EncodeField(k7, f7)
  {
    hide EncodeField, EncodeFields, Shaped;
    Sum7(k0, f0, k1, f1, k2, f2, k3, f3, k4, f4, k5, f5, k6, f6);
    EncodeSnoc([k0, k1, k2, k3, k4, k5, k6], [f0, f1, f2, f3, f4, f5, f6], k7, f7);
    assert [k0, k1, k2, k3, k4, k5, k6] + [k7] == [k0, k1, k2, k3, k4, k5, k6, k7];
    assert [f0, f1, f2, f3, f4, f5, f6] + [f7] == [f0, f1, f2, f3, f4, f5, f6, f7];
  }

  lemma LayoutExec(p: Payload)
    requires PayloadTag(p) <= 9
    ensures EncodePayload(p) == [PayloadTag(p)] + PayloadBody(p)
  {
    hide EncodeField, EncodeFields, N1, N2, N4, N8, I4, B1, T;
    FieldBytes();
    match p
    case Exec(id, timeoutSecs, cwd, raw, command) =>
      Sum5(U64, Num(id), U64, Num(timeoutSecs), Str, Text(cwd), Bool, Flag(raw), Str, Text(command));
    case ExecOut(id, stream, data) => Sum3(U64, Num(id), U8, Num(stream), Blobs, Text(data));
    case ExecEnd(id, rc, timedOut, reason) => Sum4(U64, Num(id), I32, Int(rc), Bool, Flag(timedOut), Str, Text(reason));
    case Error(id, code, message) => Sum3(U64, Num(id), U16, Num(code), Str, Text(message));
  }

  lemma LayoutBegin(p: Payload)
    requires 10 <= PayloadTag(p) <= 13
    ensures EncodePayload(p) == [PayloadTag(p)] + PayloadBody(p)
  {
    hide EncodeField, EncodeFields, N1, N2, N4, N8, I4, B1, T;
    FieldBytes();
    match p
    case PushBegin(id, remotePath, sourceName, sourceIsDir, sourceFiles, sourceBytes) =>
      Sum6(U64, Num(id), Str, Text(remotePath), Str, Text(sourceName), Bool, Flag(sourceIsDir), U64,
           Num(sourceFiles), U64, Num(sourceBytes));
    case PushReady(id, remoteRoot) => Sum2(U64, Num(id), Str, Text(remoteRoot));
    case Mkdir(id, rel, mode) => Sum3(U64, Num(id), Str, Text(rel), U32, Num(mode));
    case FileBegin(id, fileSeq, rel, size, mode, sha256) =>
      Sum6(U64, Num(id), U64, Num(fileSeq), Str, Text(rel), U64, Num(size), U32, Num(mode), Fixed32, Hash32(sha256));
  }

  lemma LayoutFile(p: Payload)
    requires 14 <= PayloadTag(p) <= 18
    ensures EncodePayload(p) == [PayloadTag(p)] + PayloadBody(p)
  {
    hide EncodeField, EncodeFields, N1, N2, N4, N8, I4, B1, T;
    FieldBytes();
    match p
    case Data(id, data) => Sum2(U64, Num(id), Blobs, Text(data));
    case FileEnd(id, sha256) => Sum2(U64, Num(id), Fixed32, Hash32(sha256));
    case Symlink(id, rel, target, mode) => Sum4(U64, Num(id), Str, Text(rel), Str, Text(target), U32, Num(mode));
    case PushEnd(id) => Sum1(U64, Num(id));
    case TransferDone(id, ok, error, remotePath, bytes, sha256) =>
      Sum6(U64, Num(id), Bool, Flag(ok), Str, Text(error), Str, Text(remotePath), U64, Num(bytes), Fixed32,
           Hash32(sha256));
  }

  lemma LayoutList(p: Payload)
    requires 19 <= PayloadTag(p) <= 21
    ensures EncodePayload(p) == [PayloadTag(p)] + PayloadBody(p)
  {
    hide EncodeField, EncodeFields, N1, N2, N4, N8, I4, B1, T;
    FieldBytes();
    match p
    case ManifestEnd(id, files) => Sum2(U64, Num(id), U64, Num(files));
    case PullBegin(id, remotePath) => Sum2(U64, Num(id), Str, Text(remotePath));
    case Entry(id, fileSeq, rel, kind, size, mode, linkTarget, sha256) =>
      Sum8(U64, Num(id), U64, Num(fileSeq), Str, Text(rel), U8, Num(kind), U64, Num(size), U32, Num(mode), Str,
           Text(linkTarget), Fixed32, Hash32(sha256));
  }

  lemma LayoutPlan(p: Payload)
    requires 22 <= PayloadTag(p) <= 24
    ensures EncodePayload(p) == [PayloadTag(p)] + PayloadBody(p)
  {
    hide EncodeField, EncodeFields, N1, N2, N4, N8, I4, B1, T;
    FieldBytes();
    match p
    case FilePlan(id, fileSeq, action, blockSize, blockCount) =>
      Sum5(U64, Num(id), U64, Num(fileSeq), U8, Num(action), U32, Num(blockSize), U64, Num(blockCount));
    case FileSigs(id, fileSeq, first, sigs) =>
      Sum4(U64, Num(id), U64, Num(fileSeq), U64, Num(first), Blobs, Text(sigs));
    case Copy(id, start, len) => Sum3(U64, Num(id), U64, Num(start), U64, Num(len));
  }

  lemma LayoutEnd(p: Payload)
    requires 25 <= PayloadTag(p)
    ensures EncodePayload(p) == [PayloadTag(p)] + PayloadBody(p)
  {
    hide EncodeField, EncodeFields, N1, N2, N4, N8, I4, B1, T;
    FieldBytes();
    match p
    case FileStart(id, fileSeq) => Sum2(U64, Num(id), U64, Num(fileSeq));
    case PlanEnd(id) => Sum1(U64, Num(id));
    case Shutdown(id, reason) => Sum2(U64, Num(id), Str, Text(reason));
    case Bye(id, code, reason) => Sum3(U64, Num(id), I32, Int(code), Str, Text(reason));
  }

  /** The encoding of each payload: its tag, then its parts in this order. */
  lemma PayloadLayout(p: Payload)
    ensures EncodePayload(p) == [PayloadTag(p)] + PayloadBody(p)
  {
    hide *;
    if PayloadTag(p) <= 9 {
      LayoutExec(p);
    } else if PayloadTag(p) <= 13 {
      LayoutBegin(p);
    } else if PayloadTag(p) <= 18 {
      LayoutFile(p);
    } else if PayloadTag(p) <= 21 {
      LayoutList(p);
    } else if PayloadTag(p) <= 24 {
      LayoutPlan(p);
    } else {
      LayoutEnd(p);
    }
  }

  /** A decoder that reads an encoding back learns the tag from the first byte;
      the last payload of a route has one of four tags. */
  lemma FinalTags(buf: Blob)
    requires DecodePayload(buf).Ok?
    ensures buf != [] && PayloadTag(DecodePayload(buf).value) == buf[0]
    ensures DecodePayload(buf).value.IsFinal() <==> buf[0] in [3, 4, 18, 31]
  {
    hide DecodePayload, EncodePayload, PayloadFits, PayloadBody;
    DecodedFits(buf);
    var p := DecodePayload(buf).value;
    PayloadLayout(p);
    SameTag(p);
  }

  lemma SameTag(p: Payload)
    ensures PayloadTag(p) == PayloadWire(p).tag
  {
  }

  // ------------------------------------------------------------- the limits

  predicate Fits8(n: nat) { n < 0x100 }

  predicate Fits16(n: nat) { n < 0x1_0000 }

  predicate Fits32(n: nat) { n < 0x1_0000_0000 }

  predicate Fits64(n: nat) { n < 0x1_0000_0000_0000_0000 }

  predicate FitsInt(i: int) { -0x8000_0000 <= i < 0x8000_0000 }

  /** Up to 1 MiB of UTF-8. */
  predicate IsText(s: Blob) { |s| <= 1024 * 1024 && ValidUtf8(s) }

  /** Up to 16 MiB of anything. */
  predicate IsData(s: Blob) { |s| <= 16 * 1024 * 1024 }

  /** The widths and limits of every part. */
  predicate Within(p: Payload)
  {
    match p
    case Exec(id, timeout, cwd, _, command) => Fits64(id) && Fits64(timeout) && IsText(cwd) && IsText(command)
    case ExecOut(id, stream, data) => Fits64(id) && Fits8(stream) && IsData(data)
    case ExecEnd(id, rc, _, reason) => Fits64(id) && FitsInt(rc) && IsText(reason)
    case Error(id, code, message) => Fits64(id) && Fits16(code) && IsText(message)
    case PushBegin(id, path, name, _, files, bytes) =>
      Fits64(id) && IsText(path) && IsText(name) && Fits64(files) && Fits64(bytes)
    case PushReady(id, root) => Fits64(id) && IsText(root)
    case Mkdir(id, rel, mode) => Fits64(id) && IsText(rel) && Fits32(mode)
    case FileBegin(id, n, rel, size, mode, _) => Fits64(id) && Fits64(n) && IsText(rel) && Fits64(size) && Fits32(mode)
    case Data(id, data) => Fits64(id) && IsData(data)
    case FileEnd(id, _) => Fits64(id)
    case Symlink(id, rel, target, mode) => Fits64(id) && IsText(rel) && IsText(target) && Fits32(mode)
    case PushEnd(id) => Fits64(id)
    case TransferDone(id, _, error, path, bytes, _) => Fits64(id) && IsText(error) && IsText(path) && Fits64(bytes)
    case ManifestEnd(id, files) => Fits64(id) && Fits64(files)
    case PullBegin(id, path) => Fits64(id) && IsText(path)
    case Entry(id, n, rel, kind, size, mode, target, _) =>
      Fits64(id) && Fits64(n) && IsText(rel) && Fits8(kind) && Fits64(size) && Fits32(mode) && IsText(target)
    case FilePlan(id, n, action, blockSize, blocks) =>
      Fits64(id) && Fits64(n) && Fits8(action) && Fits32(blockSize) && Fits64(blocks)
    case FileSigs(id, n, first, sigs) => Fits64(id) && Fits64(n) && Fits64(first) && IsData(sigs)
    case Copy(id, start, len) => Fits64(id) && Fits64(start) && Fits64(len)
    case FileStart(id, n) => Fits64(id) && Fits64(n)
    case PlanEnd(id) => Fits64(id)
    case Shutdown(id, reason) => Fits64(id) && IsText(reason)
    case Bye(id, code, reason) => Fits64(id) && FitsInt(code) && IsText(reason)
  }

  lemma FieldLimits()
    ensures forall v :: FieldFits(U8, Num(v)) == Fits8(v) && FieldFits(U16, Num(v)) == Fits16(v)
    ensures forall v :: FieldFits(U32, Num(v)) == Fits32(v) && FieldFits(U64, Num(v)) == Fits64(v)
    ensures forall i :: FieldFits(I32, Int(i)) == FitsInt(i)
    ensures forall b :: FieldFits(Bool, Flag(b))
    ensures forall s :: FieldFits(Str, Text(s)) == IsText(s) && FieldFits(Blobs, Text(s)) == IsData(s)
    ensures forall d :: FieldFits(Fixed32, Hash32(d))
  {
    hide ValidUtf8;
    Pow256Values();
  }

  /** Within the limits means all fields are. */
  lemma AllFitFew(ks: seq<Kind>, fs: seq<Field>)
    requires |ks| == |fs| <= 8
    ensures AllFit(ks, fs) <==>
      (|ks| > 0 ==> FieldFits(ks[0], fs[0])) && (|ks| > 1 ==> FieldFits(ks[1], fs[1])) &&
      (|ks| > 2 ==> FieldFits(ks[2], fs[2])) && (|ks| > 3 ==> FieldFits(ks[3], fs[3])) &&
      (|ks| > 4 ==> FieldFits(ks[4], fs[4])) && (|ks| > 5 ==> FieldFits(ks[5], fs[5])) &&
      (|ks| > 6 ==> FieldFits(ks[6], fs[6])) && (|ks| > 7 ==> FieldFits(ks[7], fs[7]))
  {
    hide FieldFits;
  }

  lemma LimitsLow(p: Payload)
    requires PayloadTag(p) <= 12
    ensures PayloadFits(p) <==> Within(p)
  {
    hide FieldFits, AllFit, Fits8, Fits16, Fits32, Fits64, FitsInt, IsText, IsData;
    FieldLimits();
    PayloadShaped(p);
    AllFitFew(PayloadKinds(PayloadWire(p).tag).value, PayloadWire(p).fields);
  }

  lemma LimitsMiddle(p: Payload)
    requires 13 <= PayloadTag(p) <= 18
    ensures PayloadFits(p) <==> Within(p)
  {
    hide FieldFits, AllFit, Fits8, Fits16, Fits32, Fits64, FitsInt, IsText, IsData;
    FieldLimits();
    PayloadShaped(p);
    AllFitFew(PayloadKinds(PayloadWire(p).tag).value, PayloadWire(p).fields);
  }

  lemma LimitsHigh(p: Payload)
    requires 19 <= PayloadTag(p)
    ensures PayloadFits(p) <==> Within(p)
  {
    hide FieldFits, AllFit, Fits8, Fits16, Fits32, Fits64, FitsInt, IsText, IsData;
    FieldLimits();
    PayloadShaped(p);
    AllFitFew(PayloadKinds(PayloadWire(p).tag).value, PayloadWire(p).fields);
  }

  /** The payloads that come back from the wire, by `PayloadRoundTrip`. */
  lemma PayloadLimits(p: Payload)
    ensures PayloadFits(p) <==> Within(p)
  {
    hide *;
    if PayloadTag(p) <= 12 {
      LimitsLow(p);
    } else if PayloadTag(p) <= 18 {
      LimitsMiddle(p);
    } else {
      LimitsHigh(p);
    }
  }

  // ------------------------------------------------------------------ frames

  function FrameTag(f: Frame): byte
  {
    match f
    case Hello(_, _, _, _, _, _) => 1
    case HelloOk(_) => 2
    case ErrorFrame(_, _) => 3
    case Ping(_) => 4
    case Pong(_) => 5
    case RelayReq(_, _) => 6
    case RelayDeliver(_, _) => 7
    case RelayResult(_, _) => 8
    case RouteCancel(_) => 9
    case ListReq => 10
    case ListRes(_) => 11
  }

  function PeerBytes(p: PeerInfo): Blob
  {
    N1(p.role) + T(p.name) + T(p.version) + T(p.os) + T(p.arch) + N8(p.connectedAtMs) + N8(p.lastSeenMs)
  }

  function PeersBytes(ps: seq<PeerInfo>): Blob
  {
    if ps == [] then [] else PeerBytes(ps[0]) + PeersBytes(ps[1..])
  }

  function FrameBody(f: Frame): Blob
  {
    match f
    case Hello(role, name, version, os, arch, pid) => N1(role) + T(name) + T(version) + T(os) + T(arch) + N4(pid)
    case HelloOk(version) => T(version)
    case ErrorFrame(code, message) => N2(code) + T(message)
    case Ping(nonce) => N8(nonce)
    case Pong(nonce) => N8(nonce)
    case RelayReq(target, payload) => T(target) + T(payload)
    case RelayDeliver(route, payload) => N8(route) + T(payload)
    case RelayResult(route, payload) => N8(route) + T(payload)
    case RouteCancel(route) => N8(route)
    case ListReq => []
    case ListRes(peers) => N2(|peers|) + PeersBytes(peers)
  }

  lemma {:induction false} EncodeConcat(ks: seq<Kind>, fs: seq<Field>, ks': seq<Kind>, fs': seq<Field>)
    requires AllShaped(ks, fs) && AllShaped(ks', fs')
    ensures AllShaped(ks + ks', fs + fs')
    ensures EncodeFields(ks + ks', fs + fs') == EncodeFields(ks, fs) + EncodeFields(ks', fs')
  {
    hide EncodeField, Shaped;
    ConcatShaped(ks, fs, ks', fs');
    if ks == [] {
      assert ks + ks' == ks' && fs + fs' == fs';
      assert [] + EncodeFields(ks', fs') == EncodeFields(ks', fs');
    } else {
      EncodeConcat(ks[1..], fs[1..], ks', fs');
      assert (ks + ks')[1..] == ks[1..] + ks' && (fs + fs')[1..] == fs[1..] + fs';
      var a, b, d := EncodeField(ks[0], fs[0]), EncodeFields(ks[1..], fs[1..]), EncodeFields(ks', fs');
      assert a + (b + d) == a + b + d;
    }
  }

  lemma PeerLayout(p: PeerInfo)
    ensures AllShaped(PEER, PeerFields(p)) && EncodeFields(PEER, PeerFields(p)) == PeerBytes(p)
  {
    hide EncodeField, EncodeFields, N1, N2, N4, N8, T;
    FieldBytes();
    Sum7(U8, Num(p.role), Str, Text(p.name), Str, Text(p.version), Str, Text(p.os), Str, Text(p.arch),
         U64, Num(p.connectedAtMs), U64, Num(p.lastSeenMs));
  }

  lemma {:induction false} PeersLayout(ps: seq<PeerInfo>)
    ensures AllShaped(PeersKinds(|ps|), PeersFields(ps))
    ensures EncodeFields(PeersKinds(|ps|), PeersFields(ps)) == PeersBytes(ps)
  {
    hide EncodeField, EncodeFields, PeerFields, PeerBytes;
    PeersShaped(ps);
    if ps == [] {
      EncodeNothing([], []);
    } else {
      PeersLayout(ps[1..]);
      PeerLayout(ps[0]);
      EncodeConcat(PEER, PeerFields(ps[0]), PeersKinds(|ps| - 1), PeersFields(ps[1..]));
    }
  }

  lemma ListLayout(ps: seq<PeerInfo>)
    ensures EncodeFrame(ListRes(ps)) == [11] + (N2(|ps|) + PeersBytes(ps))
  {
    hide *;
    FieldBytes();
    FrameEncodes(ListRes(ps));
    ListWire(ps);
    PeersLayout(ps);
    Sum1(U16, Num(|ps|)) by { NumShaped(|ps|); }
    EncodeConcat([U16], [Num(|ps|)], PeersKinds(|ps|), PeersFields(ps));
  }

  lemma NumShaped(n: nat)
    ensures Shaped(U16, Num(n))
  {
  }

  lemma PlainLayout(f: Frame)
    requires !f.ListRes?
    ensures EncodeFrame(f) == [FrameTag(f)] + FrameBody(f)
  {
    hide EncodeField, EncodeFields, N1, N2, N4, N8, T, PeersKinds, PeersBytes;
    FieldBytes();
    match f
    case Hello(role, name, version, os, arch, pid) =>
      Sum6(U8, Num(role), Str, Text(name), Str, Text(version), Str, Text(os), Str, Text(arch), U32, Num(pid));
    case HelloOk(version) => Sum1(Str, Text(version));
    case ErrorFrame(code, message) => Sum2(U16, Num(code), Str, Text(message));
    case Ping(nonce) => Sum1(U64, Num(nonce));
    case Pong(nonce) => Sum1(U64, Num(nonce));
    case RelayReq(target, payload) => Sum2(Str, Text(target), Blobs, Text(payload));
    case RelayDeliver(route, payload) => Sum2(U64, Num(route), Blobs, Text(payload));
    case RelayResult(route, payload) => Sum2(U64, Num(route), Blobs, Text(payload));
    case RouteCancel(route) => Sum1(U64, Num(route));
    case ListReq => NoneEncoded();
  }

  lemma NoneEncoded()
    ensures EncodeFields([], []) == []
  {
  }

  /** The encoding of each frame. */
  lemma FrameLayout(f: Frame)
    ensures EncodeFrame(f) == [FrameTag(f)] + FrameBody(f)
  {
    hide EncodeFrame, N2, PeersBytes;
    if f.ListRes? {
      ListLayout(f.peers);
    } else {
      PlainLayout(f);
    }
  }

  predicate PeerWithin(p: PeerInfo)
  {
    Fits8(p.role) && IsText(p.name) && IsText(p.version) && IsText(p.os) && IsText(p.arch) &&
    Fits64(p.connectedAtMs) && Fits64(p.lastSeenMs)
  }

  predicate FrameWithin(f: Frame)
  {
    match f
    case Hello(role, name, version, os, arch, pid) =>
      Fits8(role) && IsText(name) && IsText(version) && IsText(os) && IsText(arch) && Fits32(pid)
    case HelloOk(version) => IsText(version)
    case ErrorFrame(code, message) => Fits16(code) && IsText(message)
    case Ping(nonce) => Fits64(nonce)
    case Pong(nonce) => Fits64(nonce)
    case RelayReq(target, payload) => IsText(target) && IsData(payload)
    case RelayDeliver(route, payload) => Fits64(route) && IsData(payload)
    case RelayResult(route, payload) => Fits64(route) && IsData(payload)
    case RouteCancel(route) => Fits64(route)
    case ListReq => true
    case ListRes(peers) => Fits16(|peers|) && forall i :: 0 <= i < |peers| ==> PeerWithin(peers[i])
  }

  lemma AllFitConcat(ks: seq<Kind>, fs: seq<Field>, ks': seq<Kind>, fs': seq<Field>)
    requires |ks| == |fs| && |ks'| == |fs'|
    ensures AllFit(ks + ks', fs + fs') <==> AllFit(ks, fs) && AllFit(ks', fs')
  {
    hide FieldFits;
    if AllFit(ks + ks', fs + fs') {
      assert forall i :: 0 <= i < |ks| ==> ks[i] == (ks + ks')[i] && fs[i] == (fs + fs')[i];
      assert forall i :: 0 <= i < |ks'| ==> ks'[i] == (ks + ks')[|ks| + i] && fs'[i] == (fs + fs')[|ks| + i];
    }
  }

  lemma PeerLimits(p: PeerInfo)
    ensures AllFit(PEER, PeerFields(p)) <==> PeerWithin(p)
  {
    hide FieldFits, AllFit, Fits8, Fits16, Fits32, Fits64, FitsInt, IsText, IsData;
    FieldLimits();
    AllFitFew(PEER, PeerFields(p));
  }

  lemma {:induction false} PeersLimits(ps: seq<PeerInfo>)
    ensures AllFit(PeersKinds(|ps|), PeersFields(ps)) <==> forall i :: 0 <= i < |ps| ==> PeerWithin(ps[i])
  {
    hide FieldFits, PeerFields, PeerWithin, AllFit;
    if ps == [] {
      NoneFit();
    } else {
      PeerLimits(ps[0]);
      PeersLimits(ps[1..]);
      AllFitConcat(PEER, PeerFields(ps[0]), PeersKinds(|ps| - 1), PeersFields(ps[1..])) by { PeerHasSeven(ps[0]); }
      assert forall i :: 0 <= i < |ps| - 1 ==> ps[1..][i] == ps[i + 1];
    }
  }

  lemma PeerHasSeven(p: PeerInfo)
    ensures |PeerFields(p)| == 7
  {
  }

  lemma NoneFit()
    ensures AllFit([], [])
  {
  }

  lemma PlainLimits(f: Frame)
    requires !f.ListRes?
    ensures FrameFits(f) <==> FrameWithin(f)
  {
    hide FieldFits, AllFit, Fits8, Fits16, Fits32, Fits64, FitsInt, IsText, IsData, PeersKinds, PeersFields;
    FieldLimits();
    AllFitFew(KindsOf(f), FrameWire(f).fields);
  }

  lemma ListLimits(ps: seq<PeerInfo>)
    ensures FrameFits(ListRes(ps)) <==> Fits16(|ps|) && forall i :: 0 <= i < |ps| ==> PeerWithin(ps[i])
  {
    hide *;
    FieldLimits();
    FrameEncodes(ListRes(ps));
    ListWire(ps);
    PeersLimits(ps);
    AllFitFew([U16], [Num(|ps|)]);
    AllFitConcat([U16], [Num(|ps|)], PeersKinds(|ps|), PeersFields(ps));
  }

  /** The frames that come back from the wire, by `FrameRoundTrip`. */
  lemma FrameLimits(f: Frame)
    ensures FrameFits(f) <==> FrameWithin(f)
  {
    hide FrameFits, PeerWithin;
    if f.ListRes? {
      ListLimits(f.peers);
    } else {
      PlainLimits(f);
    }
  }

  // ------------------------------------------------------- texts on the wire

  /** Any byte is accepted as a boolean; only zero is false. */
  lemma AnyByteIsBool(b: byte, rest: Blob)
    ensures DecodeField(Bool, [b] + rest) == Ok(Parsed(Flag(b != 0), rest))
  {
    assert ([b] + rest)[1..] == rest;
  }

  /** A text or blob is read back exactly when it is within its limit, 1 MiB or
      16 MiB, and a text moreover exactly when it is one of scalar values. */
  lemma TextFieldIff(k: Kind, s: Blob, rest: Blob)
    requires k == Str || k == Blobs
    ensures DecodeField(k, T(s) + rest) == Ok(Parsed(Text(s), rest)) <==>
      if k == Str then |s| <= 1024 * 1024 && exists cs: seq<Scalar> :: TextBytes(cs) == s
      else |s| <= 16 * 1024 * 1024
  {
    hide DecodeField, EncodeField, ValidUtf8, TextBytes, T;
    FieldBytes();
    ValidIffText(s);
    if FieldFits(k, Text(s)) {
      FieldRoundTrip(k, Text(s), rest);
    }
    if DecodeField(k, T(s) + rest) == Ok(Parsed(Text(s), rest)) {
      FieldSound(k, T(s) + rest);
    }
  }
}
