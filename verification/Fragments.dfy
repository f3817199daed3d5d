/**
 Splitting records into bounded fragments and joining them again. The canonical text encoding, its
 reader and the digest are parameters; all that is asked of them is that reading undoes writing.
 */
module RecordFragments {
  import opened Common

  const CHUNK: nat := 6144
  const RECORD_LIMIT: nat := 1024 * 1024

  type Byte = b: int | 0 <= b < 256

  datatype Codec<!R, !D(==)> = Codec(encode: R -> seq<Byte>, decode: seq<Byte> -> Option<R>, digest: seq<Byte> -> D)

  /** `data` is None when the fragment's text is not valid base64. */
  datatype Fragment<D(==)> = Fragment(id: nat, ordinal: nat, offset: nat, total: nat, sha: D, data: Option<seq<Byte>>) {

    function Identity(): (nat, nat, nat, D) { (id, ordinal, total, sha) }
  }

  // ----- the splitter -----

  /** The fragment of `raw` that starts at `offset`. */
  function Piece<R, D>(c: Codec<R, D>, id: nat, ordinal: nat, raw: seq<Byte>, offset: nat): Fragment<D>
    requires offset <= |raw|
  {
    Fragment(id, ordinal, offset, |raw|, c.digest(raw), Some(raw[offset..Min(offset + CHUNK, |raw|)]))
  }

  function PiecesFrom<R, D>(c: Codec<R, D>, id: nat, ordinal: nat, raw: seq<Byte>, offset: nat): seq<Fragment<D>>
    decreases |raw| - offset
  {
    if offset >= |raw| then []
    else [Piece(c, id, ordinal, raw, offset)] + PiecesFrom(c, id, ordinal, raw, offset + CHUNK)
  }

  /** `record_fragments`: refuses a record over one mebibyte. */
  function Split<R, D>(c: Codec<R, D>, id: nat, ordinal: nat, record: R): Result<seq<Fragment<D>>, string> {
    var raw := c.encode(record);
    if |raw| > RECORD_LIMIT then Failure("S verification record exceeds 1 MiB")
    else Success(PiecesFrom(c, id, ordinal, raw, 0))
  }

  /** The fragments of all records from `ordinal` on, as the sender streams them. */
  function Stream<R, D>(c: Codec<R, D>, id: nat, records: seq<R>, ordinal: nat): Result<seq<Fragment<D>>, string>
    requires ordinal <= |records|
    decreases |records| - ordinal
  {
    if ordinal == |records| then Success([])
    else match Split(c, id, ordinal, records[ordinal])
      case Failure(e) => Failure(e)
      case Success(first) =>
        match Stream(c, id, records, ordinal + 1)
        case Failure(e) => Failure(e)
        case Success(rest) => Success(first + rest)
  }

  // ----- the joiner -----

  datatype Joiner<!D(==)> = Joiner(ordinal: nat, data: seq<Byte>, identity: Option<(nat, nat, nat, D)>)

  function Fresh<D>(): Joiner<D> { Joiner(0, [], None) }

  /** `accept`: the new state, and the completed record if there is one. A raise may leave the identity set. */
  function Accept<R, D(==)>(c: Codec<R, D>, j: Joiner<D>, f: Fragment<D>): (Joiner<D>, Result<Option<R>, string>) {
    if !(0 < f.total <= RECORD_LIMIT) || f.ordinal != j.ordinal then (j, Failure("verification ordinal/size mismatch"))
    else
      var k := if j.identity.None? then j.(identity := Some(f.Identity())) else j;
      if k.identity != Some(f.Identity()) || f.offset != |k.data| then
        (k, Failure("verification fragment identity/offset mismatch"))
      else if f.data.None? then (k, Failure("base64"))
      else if f.data.value == [] || |f.data.value| > CHUNK || |k.data| + |f.data.value| > f.total then
        (k, Failure("verification fragment length mismatch"))
      else
        var data := k.data + f.data.value;
        if |data| != f.total then (k.(data := data), Success(None))
        else if c.digest(data) != f.sha then (k.(data := data), Failure("verification fragment digest mismatch"))
        else match c.decode(data)
          case None => (k.(data := data), Failure("json"))
          case Some(r) => (Joiner(j.ordinal + 1, [], None), Success(Some(r)))
  }

  predicate Finished<D(==)>(j: Joiner<D>, count: nat) { j.data == [] && j.identity.None? && j.ordinal == count }

  /** Feeding fragments until the first error; the records completed so far. */
  function Feed<R, D(==)>(c: Codec<R, D>, j: Joiner<D>, fs: seq<Fragment<D>>): (Joiner<D>, seq<R>, bool)
    decreases |fs|
  {
    if fs == [] then (j, [], true)
    else
      var (k, r) := Accept(c, j, fs[0]);
      if r.Failure? then (k, [], false)
      else
        var (last, records, ok) := Feed(c, k, fs[1..]);
        (last, (if r.value.Some? then [r.value.value] else []) + records, ok)
  }

  /** A record is cut into pieces of 1 to 6144 bytes, as few as possible, that say which part of what they are. */
  lemma {:induction false} PieceSizes<R, D>(c: Codec<R, D>, id: nat, ordinal: nat, raw: seq<Byte>, offset: nat)
    ensures var fs := PiecesFrom(c, id, ordinal, raw, offset);
            && (offset <= |raw| ==> |fs| == (|raw| - offset + 6143) / 6144)
            && forall i | 0 <= i < |fs| ::
                 && fs[i].Identity() == (id, ordinal, |raw|, c.digest(raw)) && fs[i].offset == offset + 6144 * i
                 && fs[i].data.Some? && 1 <= |fs[i].data.value| <= 6144
    decreases |raw| - offset
  {
    if offset < |raw| { PieceSizes(c, id, ordinal, raw, offset + CHUNK); }
  }

  /** The fragment continues what the joiner holds, as one of the pieces of one record. */
  predicate Continues<D(==)>(j: Joiner<D>, f: Fragment<D>) {
    && f.ordinal == j.ordinal && (j.identity.None? || j.identity == Some(f.Identity())) && f.offset == |j.data|
    && 0 < f.total <= 1_048_576 && f.data.Some? && 1 <= |f.data.value| <= 6144 && |j.data| + |f.data.value| <= f.total
  }

  /**
   Whatever fragment arrives, genuine or not: it is taken exactly if it continues the record under way, and a
   record comes out exactly if the bytes are complete, have the announced digest and can be decoded.
   */
  lemma AcceptMeans<R, D>(c: Codec<R, D>, j: Joiner<D>, f: Fragment<D>)
    ensures var (k, r) := Accept(c, j, f);
            && (r.Success? <==>
                  Continues(j, f)
                  && var data := j.data + f.data.value;
                     |data| == f.total ==> c.digest(data) == f.sha && c.decode(data).Some?)
            && (r.Success? ==>
                  var data := j.data + f.data.value;
                  if |data| == f.total
                  then r.value == c.decode(data) && k == Joiner(j.ordinal + 1, [], None)
                  else r.value.None? && k == Joiner(j.ordinal, data, Some(f.Identity())))
  {
  }

  // ----- the stream, position by position -----

  ghost predicate Lossless<R(!new), D(!new)>(c: Codec<R, D>) {
    forall r: R :: |c.encode(r)| > 0 && c.decode(c.encode(r)) == Some(r)
  }

  ghost predicate Encodable<R, D>(c: Codec<R, D>, records: seq<R>) {
    forall i | 0 <= i < |records| :: |c.encode(records[i])| <= RECORD_LIMIT
  }

  /** The joiner has taken everything before byte `offset` of record `ordinal`, and nothing else. */
  ghost predicate At<R, D>(c: Codec<R, D>, id: nat, records: seq<R>, j: Joiner<D>, ordinal: nat, offset: nat) {
    && ordinal <= |records| && j.ordinal == ordinal && (ordinal == |records| ==> offset == 0)
    && (offset == 0 ==> j.data == [] && j.identity.None?)
    && (offset > 0 ==>
          var raw := c.encode(records[ordinal]);
          offset < |raw| && j.data == raw[..offset] && j.identity == Some((id, ordinal, |raw|, c.digest(raw))))
  }

  /** The rest of the stream from a position. */
  ghost function Rest<R, D>(c: Codec<R, D>, id: nat, records: seq<R>, ordinal: nat, offset: nat): seq<Fragment<D>>
    decreases |records| - ordinal, (if ordinal < |records| then |c.encode(records[ordinal])| - offset else 0)
  {
    if ordinal >= |records| then []
    else
      var raw := c.encode(records[ordinal]);
      if offset >= |raw| then Rest(c, id, records, ordinal + 1, 0)
      else [Piece(c, id, ordinal, raw, offset)] + Rest(c, id, records, ordinal, offset + CHUNK)
  }

  lemma {:induction false} RestOfRecord<R, D>(c: Codec<R, D>, id: nat, records: seq<R>, ordinal: nat, offset: nat)
    requires ordinal < |records|
    ensures Rest(c, id, records, ordinal, offset) ==
            PiecesFrom(c, id, ordinal, c.encode(records[ordinal]), offset) + Rest(c, id, records, ordinal + 1, 0)
    decreases |c.encode(records[ordinal])| - offset
  {
    if offset < |c.encode(records[ordinal])| { RestOfRecord(c, id, records, ordinal, offset + CHUNK); }
  }

  lemma EncodableTail<R, D>(c: Codec<R, D>, records: seq<R>)
    requires records != []
    ensures Encodable(c, records) <==> |c.encode(records[0])| <= RECORD_LIMIT && Encodable(c, records[1..])
  {
  }

  /** The sender streams everything, unless a record is too large. */
  lemma {:induction false} StreamIsRest<R, D>(c: Codec<R, D>, id: nat, records: seq<R>, ordinal: nat)
    requires ordinal <= |records|
    ensures Stream(c, id, records, ordinal).Success? <==> Encodable(c, records[ordinal..])
    ensures Encodable(c, records[ordinal..]) ==>
              Stream(c, id, records, ordinal) == Success(Rest(c, id, records, ordinal, 0))
    decreases |records| - ordinal
  {
    if ordinal < |records| {
      StreamIsRest(c, id, records, ordinal + 1);
      RestOfRecord(c, id, records, ordinal, 0);
      var rest := records[ordinal..];
      assert records[ordinal + 1..] == rest[1..];
      EncodableTail(c, rest);
    }
  }

  /** A fragment of the stream is the piece of its own record at its own offset. */
  ghost predicate Genuine<R, D>(c: Codec<R, D>, id: nat, records: seq<R>, f: Fragment<D>) {
    && f.ordinal < |records|
    && f.offset < |c.encode(records[f.ordinal])|
    && f == Piece(c, id, f.ordinal, c.encode(records[f.ordinal]), f.offset)
  }

  lemma {:induction false} RestGenuine<R, D>(c: Codec<R, D>, id: nat, records: seq<R>, ordinal: nat, offset: nat)
    ensures forall f | f in Rest(c, id, records, ordinal, offset) :: Genuine(c, id, records, f)
    decreases |records| - ordinal, (if ordinal < |records| then |c.encode(records[ordinal])| - offset else 0)
  {
    if ordinal < |records| {
      if offset >= |c.encode(records[ordinal])| { RestGenuine(c, id, records, ordinal + 1, 0); }
      else { RestGenuine(c, id, records, ordinal, offset + CHUNK); }
    }
  }

  /** Of all genuine fragments the joiner takes exactly the next one, and moves on by one position. */
  lemma NextOnly<R(!new), D(!new)>(c: Codec<R, D>, id: nat, records: seq<R>, j: Joiner<D>, ordinal: nat, offset: nat,
                                   f: Fragment<D>)
    requires Lossless(c) && Encodable(c, records) && At(c, id, records, j, ordinal, offset)
             && Genuine(c, id, records, f)
    ensures Accept(c, j, f).1.Success? <==> f.ordinal == ordinal && f.offset == offset
    ensures Accept(c, j, f).1.Success? ==>
              var raw := c.encode(records[ordinal]);
              var (k, r) := Accept(c, j, f);
              if offset + CHUNK >= |raw|
              then r == Success(Some(records[ordinal])) && At(c, id, records, k, ordinal + 1, 0)
              else r == Success(None) && At(c, id, records, k, ordinal, offset + CHUNK)
  {
    var raw := c.encode(records[f.ordinal]);
    assert |raw| <= RECORD_LIMIT;
    if f.ordinal == ordinal && f.offset == offset {
      var end := Min(offset + CHUNK, |raw|);
      assert raw[..offset] + raw[offset..end] == raw[..end];
      assert raw[..|raw|] == raw;
    }
  }

  /** The stream goes on with the piece at its position and then from the next position. */
  lemma RestStep<R, D>(c: Codec<R, D>, id: nat, records: seq<R>, ordinal: nat, offset: nat)
    requires ordinal < |records| && offset < |c.encode(records[ordinal])|
    ensures var raw := c.encode(records[ordinal]);
            Rest(c, id, records, ordinal, offset) ==
            [Piece(c, id, ordinal, raw, offset)]
            + (if offset + CHUNK >= |raw| then Rest(c, id, records, ordinal + 1, 0)
               else Rest(c, id, records, ordinal, offset + CHUNK))
  {
    hide Piece;
  }

  /** Feeding takes the first fragment and then feeds the others. */
  lemma FeedStep<R, D>(c: Codec<R, D>, j: Joiner<D>, fs: seq<Fragment<D>>)
    requires fs != []
    ensures var (k, r) := Accept(c, j, fs[0]);
            var rest := Feed(c, k, fs[1..]);
            && (Feed(c, j, fs).2 <==> r.Success? && rest.2)
            && (r.Success? ==> Feed(c, j, fs).0 == rest.0)
            && (r.Success? ==> Feed(c, j, fs).1 == (if r.value.Some? then [r.value.value] else []) + rest.1)
  {
    hide Accept;
    var (k, r) := Accept(c, j, fs[0]);
    if r.Failure? { assert Feed(c, j, fs) == (k, [], false); }
  }

  /**
   Whatever genuine fragments arrive, in whatever order, repeated or lost: those that are taken before
   the first error are a prefix of the stream, and they yield the records in order.
   */
  lemma {:induction false} TakenIsPrefix<R(!new), D(!new)>(c: Codec<R, D>, id: nat, records: seq<R>, j: Joiner<D>,
                                                           ordinal: nat, offset: nat, fs: seq<Fragment<D>>)
    requires Lossless(c) && Encodable(c, records) && At(c, id, records, j, ordinal, offset)
    requires forall f | f in fs :: Genuine(c, id, records, f)
    requires Feed(c, j, fs).2
    ensures fs <= Rest(c, id, records, ordinal, offset)
    ensures var (k, out, _) := Feed(c, j, fs);
            && out <= records[ordinal..]
            && (Finished(k, |records|) <==> fs == Rest(c, id, records, ordinal, offset))
    decreases |fs|
  {
    hide Accept, Genuine, At, Encodable, Lossless, Piece, Finished;
    if fs == [] {
      hide Rest;
      AtEnd(c, id, records, j, ordinal, offset);
    } else {
      hide Rest, Feed;
      FeedStep(c, j, fs);
      NextExists(c, id, records, j, ordinal, offset, fs[0]);
      NextOnly(c, id, records, j, ordinal, offset, fs[0]);
      RestStep(c, id, records, ordinal, offset);
      var (k, _) := Accept(c, j, fs[0]);
      if offset + CHUNK >= |c.encode(records[ordinal])| {
        TakenIsPrefix(c, id, records, k, ordinal + 1, 0, fs[1..]);
        assert records[ordinal..] == [records[ordinal]] + records[ordinal + 1..];
      } else {
        TakenIsPrefix(c, id, records, k, ordinal, offset + CHUNK, fs[1..]);
      }
      assert fs == [fs[0]] + fs[1..];
    }
  }

  /** A genuine fragment at a position is the piece there. */
  lemma NextExists<R(!new), D(!new)>(c: Codec<R, D>, id: nat, records: seq<R>, j: Joiner<D>, ordinal: nat, offset: nat,
                                     f: Fragment<D>)
    requires At(c, id, records, j, ordinal, offset) && Genuine(c, id, records, f)
    ensures f.ordinal == ordinal && f.offset == offset ==>
              ordinal < |records| && offset < |c.encode(records[ordinal])|
              && f == Piece(c, id, ordinal, c.encode(records[ordinal]), offset)
  {
  }

  /** The joiner is finished exactly where the stream is over. */
  lemma AtEnd<R(!new), D(!new)>(c: Codec<R, D>, id: nat, records: seq<R>, j: Joiner<D>, ordinal: nat, offset: nat)
    requires Lossless(c) && At(c, id, records, j, ordinal, offset)
    ensures Finished(j, |records|) <==> Rest(c, id, records, ordinal, offset) == []
  {
  }

  lemma {:induction false} RestAccepted<R(!new), D(!new)>(c: Codec<R, D>, id: nat, records: seq<R>, j: Joiner<D>,
                                                          ordinal: nat, offset: nat)
    requires Lossless(c) && Encodable(c, records) && At(c, id, records, j, ordinal, offset)
    ensures var (k, out, ok) := Feed(c, j, Rest(c, id, records, ordinal, offset));
            ok && out == records[ordinal..] && Finished(k, |records|)
    decreases |records| - ordinal, (if ordinal < |records| then |c.encode(records[ordinal])| - offset else 0)
  {
    if ordinal < |records| {
      var raw := c.encode(records[ordinal]);
      var f := Piece(c, id, ordinal, raw, offset);
      var fs := Rest(c, id, records, ordinal, offset);
      NextOnly(c, id, records, j, ordinal, offset, f);
      RestStep(c, id, records, ordinal, offset);
      hide Accept, Piece, Rest;
      var k := Accept(c, j, f).0;
      if offset + CHUNK >= |raw| {
        assert fs[1..] == Rest(c, id, records, ordinal + 1, 0);
        RestAccepted(c, id, records, k, ordinal + 1, 0);
        assert records[ordinal..] == [records[ordinal]] + records[ordinal + 1..];
      } else {
        assert fs[1..] == Rest(c, id, records, ordinal, offset + CHUNK);
        RestAccepted(c, id, records, k, ordinal, offset + CHUNK);
      }
    }
  }

  /** Splitting and joining gives the records back, and the final check passes. */
  lemma RoundTrip<R(!new), D(!new)>(c: Codec<R, D>, id: nat, records: seq<R>, stream: seq<Fragment<D>>)
    requires Lossless(c) && Stream(c, id, records, 0) == Success(stream)
    ensures var (k, out, ok) := Feed(c, Fresh(), stream);
            ok && out == records && Finished(k, |records|)
  {
    assert records[0..] == records;
    StreamIsRest(c, id, records, 0);
    RestAccepted(c, id, records, Fresh(), 0, 0);
  }

  /** Every loss, repeat or swap of genuine fragments is caught, by `accept` or by the final check. */
  lemma DisorderIsCaught<R(!new), D(!new)>(c: Codec<R, D>, id: nat, records: seq<R>, stream: seq<Fragment<D>>,
                                           fs: seq<Fragment<D>>)
    requires Lossless(c) && Stream(c, id, records, 0) == Success(stream)
    requires forall f | f in fs :: f in stream
    ensures var (k, out, ok) := Feed(c, Fresh(), fs);
            && (ok ==> fs <= stream && out <= records)
            && (ok && Finished(k, |records|) <==> fs == stream)
  {
    assert records[0..] == records;
    StreamIsRest(c, id, records, 0);
    RestGenuine(c, id, records, 0, 0);
    RestAccepted(c, id, records, Fresh(), 0, 0);
    if Feed(c, Fresh(), fs).2 {
      TakenIsPrefix(c, id, records, Fresh(), 0, 0, fs);
    }
  }

  class RecordAssembler<R, D(==)> {
    var ordinal: nat
    var data: seq<Byte>
    var identity: Option<(nat, nat, nat, D)>

    function State(): Joiner<D> reads this { Joiner(ordinal, data, identity) }

    constructor ()
      ensures State() == Fresh()
    {
      ordinal, data, identity := 0, [], None;
    }

    /** The buffer grows until the record is whole, then the joiner starts afresh. */
    method Take(c: Codec<R, D>, f: Fragment<D>) returns (r: Result<Option<R>, string>)
      modifies this
      ensures (State(), r) == Accept(c, old(State()), f)
    {
      if !(0 < f.total <= RECORD_LIMIT) || f.ordinal != ordinal {
        return Failure("verification ordinal/size mismatch");
      }
      if identity.None? {
        identity := Some(f.Identity());
      }
      if identity != Some(f.Identity()) || f.offset != |data| {
        return Failure("verification fragment identity/offset mismatch");
      }
      if f.data.None? {
        return Failure("base64");
      }
      var part := f.data.value;
      if part == [] || |part| > CHUNK || |data| + |part| > f.total {
        return Failure("verification fragment length mismatch");
      }
      data := data + part;
      if |data| != f.total {
        return Success(None);
      }
      if c.digest(data) != f.sha {
        return Failure("verification fragment digest mismatch");
      }
      var record := c.decode(data);
      if record.None? {
        return Failure("json");
      }
      ordinal, data, identity := ordinal + 1, [], None;
      return Success(record);
    }

    method Finish(count: nat) returns (ok: bool)
      ensures ok <==> Finished(State(), count)
    {
      ok := !(data != [] || identity.Some? || ordinal != count);
    }
  }
}
