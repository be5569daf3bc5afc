/** The blob batch: for every requested object a header line with its name, kind and size, then that many bytes
    and a newline. The bytes of a blob may be anything, newlines and NULs included. */
module BlobBatch {
  import opened Prelude
  import opened Bytes

  datatype BatchError = NoHeader | NotText | BadHeader(words: seq<Data>) | BadSize(word: Data) | WrongHash(oid: Data)

  const BLOB: Data := [98, 108, 111, 98]

  /** The blob whose header starts at a position, and the position after it. `name` is the object hash of a blob. */
  function BlobAt(batch: Data, position: int, oid: Data, name: Data -> Data): Result<(Data, int), BatchError> {
    match IndexFrom(batch, NEWLINE, position)
    case None => Err(NoHeader)
    case Some(newline) =>
      var head := Slice(batch, position, newline);
      if !Ascii(head) then Err(NotText)
      else var words := Words(head);
      if |words| != 3 || words[0] != oid || words[1] != BLOB then Err(BadHeader(words))
      else match ParseInt(words[2])
           case None => Err(BadSize(words[2]))
           case Some(size) =>
             var data := Slice(batch, newline + 1, newline + 1 + size);
             if name(data) != oid then Err(WrongHash(oid)) else Ok((data, newline + 1 + size + 1))
  }

  function BlobsFrom(batch: Data, position: int, oids: seq<Data>, name: Data -> Data): Result<seq<Data>, BatchError>
    decreases |oids|
  {
    if oids == [] then Ok([])
    else match BlobAt(batch, position, oids[0], name)
         case Err(e) => Err(e)
         case Ok((data, next)) =>
           match BlobsFrom(batch, next, oids[1..], name)
           case Err(e) => Err(e)
           case Ok(rest) => Ok([data] + rest)
  }

  /** The batch loop of `materialise`: on success every requested object is there, under its name, and nothing else is. */
  method ReadBatch(batch: Data, oids: seq<Data>, name: Data -> Data) returns (r: Result<map<Data, Data>, BatchError>)
    ensures r.Ok? <==> BlobsFrom(batch, 0, oids, name).Ok?
    ensures r.Err? ==> r.error == BlobsFrom(batch, 0, oids, name).error
    ensures r.Ok? ==> forall oid :: oid in r.value <==> oid in oids
    ensures r.Ok? ==> forall i | 0 <= i < |oids| :: name(r.value[oids[i]]) == oids[i]
    ensures r.Ok? ==> forall oid | oid in r.value :: r.value[oid] in BlobsFrom(batch, 0, oids, name).value
  {
    hide Slice; hide Words; hide ParseInt; hide IndexFrom; hide Ascii; hide Find; hide Clamp;
    var blobs: map<Data, Data> := map[];
    var position := 0;
    ghost var found: seq<Data> := [];
    assert oids[0..] == oids;
    AfterNothing(BlobsFrom(batch, 0, oids, name));
    for i := 0 to |oids|
      invariant BlobsFrom(batch, 0, oids, name) == After(found, BlobsFrom(batch, position, oids[i..], name))
      invariant forall oid :: oid in blobs <==> oid in oids[..i]
      invariant forall oid | oid in blobs :: name(blobs[oid]) == oid && blobs[oid] in found
    {
      assert oids[i..][0] == oids[i] && oids[i..][1..] == oids[i + 1..];
      assert oids[..i + 1] == oids[..i] + [oids[i]];
      var newline := IndexFrom(batch, NEWLINE, position);
      if newline.None? { return Err(NoHeader); }
      var head := Slice(batch, position, newline.value);
      if !Ascii(head) { return Err(NotText); }
      var words := Words(head);
      if |words| != 3 || words[0] != oids[i] || words[1] != BLOB { return Err(BadHeader(words)); }
      var size := ParseInt(words[2]);
      if size.None? { return Err(BadSize(words[2])); }
      var data := Slice(batch, newline.value + 1, newline.value + 1 + size.value);
      position := newline.value + 1 + size.value + 1;
      if name(data) != oids[i] { return Err(WrongHash(oids[i])); }
      AfterOneMore(found, data, BlobsFrom(batch, position, oids[i + 1..], name));
      found := found + [data];
      blobs := blobs[oids[i] := data];
    }
    assert found + [] == found;
    return Ok(blobs);
  }

  // ---------------------------------------------------------------- what git writes

  function Header(oid: Data, size: nat): Data { oid + [SPACE] + BLOB + [SPACE] + Decimal(size) }

  function RenderBlob(oid: Data, blob: Data): Data { Header(oid, |blob|) + [NEWLINE] + blob + [NEWLINE] }

  function RenderBatch(oids: seq<Data>, blobs: seq<Data>): Data
    requires |oids| == |blobs|
  {
    if oids == [] then [] else RenderBlob(oids[0], blobs[0]) + RenderBatch(oids[1..], blobs[1..])
  }

  lemma HeaderWords(oid: Data, size: nat)
    requires IsWord(oid)
    ensures Words(Header(oid, size)) == [oid, BLOB, Decimal(size)]
  {
    hide Words; hide Decimal; hide WordLength;
    var n := Decimal(size);
    var tail := BLOB + ([SPACE] + n);
    assert Header(oid, size) == oid + ([SPACE] + tail);
    LeadingWord(oid, [SPACE] + tail);
    SpaceSkipped(tail);
    LeadingWord(BLOB, [SPACE] + n);
    SpaceSkipped(n);
    assert n + [] == n;
    LeadingWord(n, []);
    NoWords();
  }

  lemma NoWords()
    ensures Words([]) == []
  {
  }

  lemma SpaceSkipped(s: Data)
    ensures Words([SPACE] + s) == Words(s)
  {
    assert ([SPACE] + s)[1..] == s;
  }

  lemma HeaderIsOneLine(oid: Data, size: nat)
    requires IsWord(oid)
    ensures Ascii(Header(oid, size)) && Without(Header(oid, size), NEWLINE)
  {
    hide Decimal;
  }

  /** The blob at its place, whatever comes before and after. */
  lemma BlobReadsBack(before: Data, oid: Data, blob: Data, rest: Data, name: Data -> Data)
    requires IsWord(oid) && name(blob) == oid
    ensures BlobAt(before + RenderBlob(oid, blob) + rest, |before|, oid, name) == Ok((blob, |before + RenderBlob(oid, blob)|))
  {
    hide Words; hide ParseInt; hide IsWord; hide Ascii; hide Without; hide Header; hide Decimal; hide Find; hide Slice;
    var batch := before + RenderBlob(oid, blob) + rest;
    var head := Header(oid, |blob|);
    HeaderWords(oid, |blob|);
    HeaderIsOneLine(oid, |blob|);
    DecimalRoundTrip(|blob|);
    assert batch[|before|..] == head + [NEWLINE] + (blob + [NEWLINE] + rest);
    FindAfter(head, NEWLINE, blob + [NEWLINE] + rest);
    var newline := |before| + |head|;
    assert IndexFrom(batch, NEWLINE, |before|) == Some(newline);
    SliceOf(before, head, [NEWLINE] + blob + [NEWLINE] + rest);
    assert batch == before + head + ([NEWLINE] + blob + [NEWLINE] + rest);
    SliceOf(before + head + [NEWLINE], blob, [NEWLINE] + rest);
    assert batch == (before + head + [NEWLINE]) + blob + ([NEWLINE] + rest);
  }

  /** Reading what git writes returns exactly the blobs, whatever bytes they hold and whatever follows. */
  lemma {:induction false} BatchRoundTrip(before: Data, oids: seq<Data>, blobs: seq<Data>, rest: Data, name: Data -> Data)
    requires |oids| == |blobs| && forall i | 0 <= i < |oids| :: IsWord(oids[i]) && name(blobs[i]) == oids[i]
    ensures BlobsFrom(before + RenderBatch(oids, blobs) + rest, |before|, oids, name) == Ok(blobs)
    decreases |oids|
  {
    hide BlobAt; hide IsWord; hide RenderBlob;
    if oids != [] {
      var first := RenderBlob(oids[0], blobs[0]);
      var others := RenderBatch(oids[1..], blobs[1..]);
      BlobReadsBack(before, oids[0], blobs[0], others + rest, name);
      BatchRoundTrip(before + first, oids[1..], blobs[1..], rest, name);
      assert before + RenderBatch(oids, blobs) + rest == before + first + (others + rest);
      assert before + RenderBatch(oids, blobs) + rest == (before + first) + others + rest;
      assert blobs == [blobs[0]] + blobs[1..];
    } else {
      assert blobs == [];
    }
  }

  ghost predicate Injective(name: Data -> Data) { forall a, b | name(a) == name(b) :: a == b }

  /** No batch at all, however it is framed, makes the loop accept anything but the named blobs. */
  lemma {:induction false} OnlyTheNamedBlobs(batch: Data, position: int, oids: seq<Data>, blobs: seq<Data>, name: Data -> Data)
    requires Injective(name) && |oids| == |blobs| && forall i | 0 <= i < |oids| :: name(blobs[i]) == oids[i]
    ensures BlobsFrom(batch, position, oids, name).Ok? ==> BlobsFrom(batch, position, oids, name).value == blobs
    decreases |oids|
  {
    hide Slice; hide Words; hide ParseInt; hide IndexFrom; hide Ascii;
    if oids != [] && BlobAt(batch, position, oids[0], name).Ok? {
      var (data, next) := BlobAt(batch, position, oids[0], name).value;
      assert name(data) == name(blobs[0]);
      OnlyTheNamedBlobs(batch, next, oids[1..], blobs[1..], name);
      assert blobs == [blobs[0]] + blobs[1..];
    }
  }
}
