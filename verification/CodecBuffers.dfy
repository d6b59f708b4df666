/** `Encoder` and `Decoder`: the buffers behind the codec. */
module CodecBuffers {
  import opened Bytes
  import opened Payloads
  import opened Utf8
  import opened Codec

  /** An output buffer that grows at the end. */
  class Encoder {
    var buf: Blob

    constructor ()
      ensures buf == []
    {
      buf := [];
    }

    method Unsigned(v: nat, width: nat)
      modifies this
      ensures buf == old(buf) + ToBigEndian(v, width)
    {
      buf := buf + ToBigEndian(v, width);
    }

    method Bytes(v: Blob)
      modifies this
      ensures buf == old(buf) + (ToBigEndian(|v|, 4) + v)
    {
      Unsigned(|v|, 4);
      buf := buf + v;
    }

    method Put(k: Kind, f: Field)
      requires Shaped(k, f)
      modifies this
      ensures buf == old(buf) + EncodeField(k, f)
    {
      match f {
        case Num(n) => Unsigned(n, Width(k));
        case Int(i) => Unsigned(i % 0x1_0000_0000, 4);
        case Flag(b) => buf := buf + [if b then 1 else 0];
        case Text(s) => Bytes(s);
        case Hash32(d) => buf := buf + d;
      }
    }

    /** A chain of encoder calls. */
    method PutAll(ks: seq<Kind>, fs: seq<Field>)
      requires AllShaped(ks, fs)
      modifies this
      ensures buf == old(buf) + EncodeFields(ks, fs)
    {
      hide EncodeField, Shaped;
      EncodeNothing(ks, fs);
      for i := 0 to |ks|
        invariant AllShaped(ks[..i], fs[..i])
        invariant buf == old(buf) + EncodeFields(ks[..i], fs[..i])
      {
        EncodeSnoc(ks[..i], fs[..i], ks[i], fs[i]);
        assert ks[..i] + [ks[i]] == ks[..i + 1] && fs[..i] + [fs[i]] == fs[..i + 1];
        Put(ks[i], fs[i]);
      }
      assert ks[..|ks|] == ks && fs[..|ks|] == fs;
    }
  }

  lemma EncodeNothing(ks: seq<Kind>, fs: seq<Field>)
    ensures EncodeFields(ks[..0], fs[..0]) == []
  {
  }

  lemma {:induction false} EncodeSnoc(ks: seq<Kind>, fs: seq<Field>, k: Kind, f: Field)
    requires AllShaped(ks, fs) && Shaped(k, f)
    ensures AllShaped(ks + [k], fs + [f])
    ensures EncodeFields(ks + [k], fs + [f]) == EncodeFields(ks, fs) + EncodeField(k, f)
  {
    hide EncodeField, Shaped;
    if ks == [] {
      assert (ks + [k])[1..] == [] && (fs + [f])[1..] == [];
    } else {
      assert (ks + [k])[1..] == ks[1..] + [k] && (fs + [f])[1..] == fs[1..] + [f];
      EncodeSnoc(ks[1..], fs[1..], k, f);
    }
  }

  /** A cursor over a received message. */
  class Decoder {
    const buf: Blob
    var pos: nat

    ghost predicate Valid()
      reads this
    {
      pos <= |buf|
    }

    constructor (input: Blob)
      ensures Valid() && buf == input && pos == 0
    {
      buf := input;
      pos := 0;
    }

    /** Advance over `n` bytes if they are there. */
    method Take(n: nat) returns (r: Option<Blob>)
      requires Valid()
      modifies this
      ensures Valid()
      ensures if old(pos) + n > |buf| then r.None? && pos == old(pos)
              else pos == old(pos) + n && r == Some(buf[old(pos)..pos])
    {
      if pos + n > |buf| {
        return None;
      }
      r := Some(buf[pos..pos + n]);
      pos := pos + n;
    }

    method Text(k: Kind, head: Blob) returns (r: Result<Field>)
      requires Valid() && (k == Str || k == Blobs) && |head| == 4
      modifies this
      ensures Valid()
      ensures var n, rest := FromBigEndian(head), buf[old(pos)..];
              match r
              case Ok(f) => n <= MaxLen(k) && n <= |rest| && TextOk(k, rest[..n]) &&
                            f == Field.Text(rest[..n]) && buf[pos..] == rest[n..]
              case Err(m) => m == if n > MaxLen(k) then "too large"
                                  else if n > |rest| then "truncated message" else "invalid UTF-8 string"
      ensures r.Err? ==> var n, rest := FromBigEndian(head), buf[old(pos)..];
                         n > MaxLen(k) || n > |rest| || !TextOk(k, rest[..n])
    {
      hide ValidUtf8;
      var n := FromBigEndian(head);
      if n > MaxLen(k) {
        return Err("too large");
      }
      var s := Take(n);
      if s.None? {
        return Err("truncated message");
      }
      assert s.value == buf[old(pos)..][..n];
      assert buf[pos..] == buf[old(pos)..][n..];
      if !TextOk(k, s.value) {
        return Err("invalid UTF-8 string");
      }
      return Ok(Field.Text(s.value));
    }

    /** Read one field. */
    method Get(k: Kind) returns (r: Result<Field>)
      requires Valid()
      modifies this
      ensures Valid()
      ensures match DecodeField(k, old(buf[pos..]))
              case Ok(p) => r == Ok(p.field) && buf[pos..] == p.rest
              case Err(m) => r == Err(m)
    {
      hide ValidUtf8, TextOk;
      var from := buf[pos..];
      var head := Take(Width(k));
      if head.None? {
        return Err("truncated message");
      }
      assert head.value == from[..Width(k)] && buf[pos..] == from[Width(k)..];
      match k {
        case U8 | U16 | U32 | U64 => r := Ok(Num(FromBigEndian(head.value)));
        case I32 =>
          var v: int := FromBigEndian(head.value);
          r := Ok(Int(if v < 0x8000_0000 then v else v - 0x1_0000_0000));
        case Bool => r := Ok(Flag(head.value[0] != 0));
        case Fixed32 => r := Ok(Hash32(head.value));
        case Str | Blobs => r := Text(k, head.value);
      }
    }

    /** A chain of decoder calls. */
    method GetAll(ks: seq<Kind>) returns (r: Result<seq<Field>>)
      requires Valid()
      modifies this
      ensures Valid()
      ensures match DecodeFields(ks, old(buf[pos..]))
              case Ok(p) => r == Ok(p.fields) && buf[pos..] == p.rest
              case Err(m) => r == Err(m)
    {
      hide DecodeField;
      ghost var from := buf[pos..];
      var fs: seq<Field> := [];
      AfterNothing(DecodeFields(ks, from));
      assert ks[0..] == ks;
      for i := 0 to |ks|
        invariant Valid() && |fs| == i
        invariant DecodeFields(ks, from) == After(fs, DecodeFields(ks[i..], buf[pos..]))
      {
        var f := Get(ks[i]);
        assert ks[i..][0] == ks[i] && ks[i..][1..] == ks[i + 1..];
        if f.Err? {
          return Err(f.message);
        }
        assert forall more: seq<Field> :: fs + ([f.value] + more) == fs + [f.value] + more;
        fs := fs + [f.value];
      }
      assert ks[|ks|..] == [] && fs + [] == fs;
      return Ok(fs);
    }
  }

  /** The outcome of reading more fields after `fs`. */
  function After(fs: seq<Field>, r: Result<ParsedList>): Result<ParsedList>
  {
    match r
    case Err(m) => Err(m)
    case Ok(p) => Ok(ParsedList(fs + p.fields, p.rest))
  }

  lemma AfterNothing(r: Result<ParsedList>)
    ensures After([], r) == r
  {
    if r.Ok? {
      assert [] + r.value.fields == r.value.fields;
    }
  }

  /** `Payload::encode`. */
  method Encode(p: Payload) returns (out: Blob)
    ensures out == EncodePayload(p)
  {
    hide PayloadWire, PayloadKinds, AllShaped, EncodeFields;
    var w := PayloadWire(p);
    PayloadShaped(p);
    var e := new Encoder();
    e.Unsigned(w.tag, 1);
    assert ToBigEndian(w.tag, 1) == [w.tag];
    e.PutAll(PayloadKinds(w.tag).value, w.fields);
    out := e.buf;
  }

  /** `Payload::decode`. */
  method Decode(buf: Blob) returns (r: Result<Payload>)
    ensures r == DecodePayload(buf)
  {
    hide PayloadWire, PayloadKinds, AllShaped, DecodeFields, BuildPayload;
    var d := new Decoder(buf);
    var tag := d.Take(1);
    if tag.None? {
      return Err("truncated message");
    }
    var ks := PayloadKinds(tag.value[0]);
    if ks.None? {
      return Err("unknown payload op");
    }
    assert buf[d.pos..] == buf[1..];
    var fs := d.GetAll(ks.value);
    if fs.Err? {
      return Err(fs.message);
    }
    FieldsSound(ks.value, buf[1..]);
    if d.pos != |buf| {
      return Err("trailing bytes after message");
    }
    return Ok(BuildPayload(tag.value[0], fs.value));
  }
}
