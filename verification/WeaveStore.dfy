/** submit.go, the chunk side of store.go and getArTxData of api.go over one key-value store. */
module WeaveStore {
  import opened Basics
  import opened Weave
  import Codec

  datatype Error =
    | Invalid | Syntax | NotExist | ExistTx | NullData | CutFailed | WrongRoot | WriteFailed | FetchFailed
    | Panics   // an allocation that the runtime refuses
    | GivenUp  // a loop that has not ended after the number of loads it was watched for

  datatype Outcome = Ok | Fail(error: Error)

  datatype Fetched = Data(bytes: seq<Byte>) | NoData(error: Error)

  datatype Tx = Tx(id: string, root: string, size: string)

  /** A chunk as it is submitted or generated, in text; `offset` is the index of its last byte. */
  datatype Chunk = Chunk(root: string, size: string, offset: string, chunk: string)

  function PieceOf(c: Chunk): Option<Piece> {
    var offset, data := ParseUint(c.offset), Codec.Base64Decode(c.chunk);
    if offset.None? || data.None? then None else Some(Piece(offset.value, data.value))
  }

  /** A chunk's texts give a piece exactly if both parse. */
  lemma PieceParses(c: Chunk, p: Piece)
    ensures PieceOf(c) == Some(p) <==>
            ParseUint(c.offset) == Some(p.offset) && Codec.Base64Decode(c.chunk) == Some(p.data)
  {}

  ghost function Pieces(c: Chunk): set<Piece> {
    if PieceOf(c).None? then {} else {PieceOf(c).value}
  }

  /** What PrepareChunks makes of some data: the root it computes and the data cut into chunks. */
  datatype Cut = Cut(root: string, parts: seq<seq<Byte>>)

  /** Data is cut into chunks that are not empty. */
  ghost predicate Cutting(cut: seq<Byte> -> Option<Cut>) {
    forall d ::
      cut(d).Some? ==> NoneEmpty(cut(d).value.parts) && Flatten(cut(d).value.parts) == d
  }

  /** Chunk i as utils.GetChunk gives it, under the size that the transaction states. */
  function ChunkAt(cut: Cut, size: string, i: nat): Chunk
    requires i < |cut.parts| && |cut.parts[i]| >= 1
  {
    var p := PieceAt(cut.parts, i);
    Chunk(cut.root, size, DecimalText(p.offset), Codec.Base64Encode(p.data))
  }

  lemma GeneratedPiece(cut: Cut, size: string, i: nat)
    requires NoneEmpty(cut.parts) && i < |cut.parts|
    ensures Pieces(ChunkAt(cut, size, i)) <= PiecesOf(cut.parts)
    ensures Pre(cut.parts, |cut.parts|) <= UINT64 ==> PieceOf(ChunkAt(cut, size, i)).Some?
    ensures PieceOf(ChunkAt(cut, size, i)).Some? ==> PieceOf(ChunkAt(cut, size, i)).value == PieceAt(cut.parts, i)
  {
    PreMono(cut.parts, i + 1, |cut.parts|);
    DecimalRoundTrip(PieceAt(cut.parts, i).offset);
    Codec.Base64RoundTrip(cut.parts[i]);
  }

  /** The chunks after the first n pieces are put for a transaction beginning at start. */
  ghost function PutAll(
    chunks: map<nat, seq<Byte>>, start: nat, parts: seq<seq<Byte>>, n: nat): (r: map<nat, seq<Byte>>)
    requires NoneEmpty(parts) && n <= |parts|
    ensures forall a :: a in chunks ==> a in r
  {
    if n == 0 then chunks
    else PutAll(chunks, start, parts, n - 1)[PutAddress(start, PieceAt(parts, n - 1)) := parts[n - 1]]
  }

  /** Data that is not longer than its stated size is present in full once all its pieces are put. */
  lemma {:induction false} PutAllPresent(
    chunks: map<nat, seq<Byte>>, k: Key, end: nat, parts: seq<seq<Byte>>, n: nat)
    requires k.size <= end && end + 1 < UINT64 && NoneEmpty(parts) && Pre(parts, |parts|) <= k.size && n <= |parts|
    ensures AllPresent(PutAll(chunks, Start(k, end), parts, n), Start(k, end), parts, n)
  {
    if n > 0 {
      PutAllPresent(chunks, k, end, parts, n - 1);
      ChunkAddress(k, end, parts, PieceAt(parts, n - 1), n - 1);
      var before, after := PutAll(chunks, Start(k, end), parts, n - 1), PutAll(chunks, Start(k, end), parts, n);
      forall m {:trigger Present(after, Start(k, end), parts, m)} | 0 <= m < n
        ensures Present(after, Start(k, end), parts, m)
      {
        if m < n - 1 {
          assert Present(before, Start(k, end), parts, m);
        }
      }
    }
  }

  /** All pieces of a transaction are put: it is complete. */
  lemma PutWhole(t: Run<Action>, held: map<nat, seq<Byte>>, k: Key, parts: seq<seq<Byte>>)
    requires IsRun(INIT, t) && Clean(t, k, parts) && k in Exec(INIT, t).ends
    requires Exec(INIT, t).chunks == PutAll(held, Start(k, Exec(INIT, t).ends[k]), parts, |parts|)
    ensures Complete(Exec(INIT, t), k, parts, |parts|) && Complete(Exec(INIT, t), k, parts, Needed(parts))
  {
    InvHolds(t);
    PutAllPresent(held, k, Exec(INIT, t).ends[k], parts, |parts|);
  }

  function Answer(read: Read): Fetched {
    match read
    case Done(data) => Data(data)
    case Missing => NoData(NotExist)
    case Endless => NoData(GivenUp)
  }

  lemma AnswerIsRight(run: Run<Action>, k: Key, parts: seq<seq<Byte>>, loads: nat)
    requires IsRun(INIT, run) && k in Exec(INIT, run).ends && k.size > 0
    ensures var s := Exec(INIT, run);
            && (Confined(run) && loads >= k.size ==> !GetData(s, k, loads).Endless?)
            && (Clean(run, k, parts) && loads >= |parts| ==>
                  GetData(s, k, loads) ==
                  if Complete(s, k, parts, Needed(parts)) then Done(Flatten(parts[..Needed(parts)])) else Missing)
  {
    if Confined(run) && loads >= k.size {
      ReadEnds(run, k, loads);
    }
    if Clean(run, k, parts) && loads >= |parts| {
      ReadExact(run, k, parts, loads);
    }
  }

  class Store {
    var all: nat                     // allDataEndOffset
    var ends: map<Key, nat>          // TxDataEndOffSetBucket
    var chunks: map<nat, seq<Byte>>  // ChunkBucket
    var metas: set<string>           // TxMetaBucket
    var tick: nat                    // number of writes tried so far
    const fault: nat -> bool         // which of them fail
    const cut: seq<Byte> -> Option<Cut>

    ghost var lock: Lock
    ghost var writers: set<Writer>
    ghost var run: Run<Action>       // the run of the weave machine performed so far

    ghost function View(): State
      reads this
    {
      State(all, ends, chunks, metas, lock, writers)
    }

    /** The store is where a run of the machine leads, and nobody is inside the critical section. */
    ghost predicate Valid()
      reads this
    {
      Cutting(cut) && Reached(View()) && lock.Free?
    }

    ghost predicate Room(text: string)
      reads this
    {
      ParseUint(text).Some? ==> all + ParseUint(text).value + 1 < UINT64
    }

    constructor (fault: nat -> bool, cut: seq<Byte> -> Option<Cut>)
      requires Cutting(cut)
      ensures Valid() && this.fault == fault && this.cut == cut
      ensures View() == INIT
    {
      this.fault, this.cut := fault, cut;
      all, ends, chunks, metas, tick := 0, map[], map[], {}, 0;
      lock, writers, run := Free, {}, Begin;
    }

    /** What can be stored for some data. */
    ghost function PiecesOfData(data: seq<Byte>): set<Piece>
      requires Cutting(cut)
    {
      if cut(data).None? then {} else PiecesOf(cut(data).value.parts)
    }

    ghost function PiecesOfOption(data: Option<seq<Byte>>): set<Piece>
      requires Cutting(cut)
    {
      if data.None? then {} else PiecesOfData(data.value)
    }

    /** The data can be cut, under this root. */
    ghost predicate Storable(root: string, data: Option<seq<Byte>>) {
      && data.Some? && data.value != []
      && cut(data.value).Some? && cut(data.value).value.root == root
    }

    ghost predicate CutInto(data: seq<Byte>, parts: seq<seq<Byte>>) {
      cut(data).Some? && cut(data).value.parts == parts
    }

    /** One write attempt. */
    method Try() returns (ok: bool)
      modifies this`tick
      ensures ok == !fault(old(tick)) && tick == old(tick) + 1
    {
      ok := !fault(tick);
      tick := tick + 1;
    }

    /** The run so far leads to s. */
    ghost predicate Reached(s: State)
      reads this`run
    {
      IsRun(INIT, run) && Exec(INIT, run) == s
    }

    /** The run goes on from s, where it stands, to t. */
    ghost method Log(s: State, a: Action, t: State)
      requires Reached(s) && Enabled(s, a) && HasRoom(s, a) && t == Next(s, a)
      modifies this`run
      ensures Reached(t) && run == Then(old(run), a)
    {
      run := Then(run, a);
    }

    method SaveAllDataEndOffset(end: nat, ghost k: Key) returns (ok: bool)
      requires Valid() && k !in ends && end == all + k.size && end + 1 < UINT64
      modifies this`all, this`tick, this`lock, this`run
      ensures Cutting(cut) && Reached(View()) && run == if ok then Then(old(run), Reserve(k)) else old(run)
      ensures ok == !fault(old(tick)) && tick == old(tick) + 1
      ensures if ok then all == end && lock == Counted(old(all), end, k) else all == old(all) && lock.Free?
    {
      ok := Try();
      if ok {
        ghost var s := View();
        InRange(end);
        lock := Counted(all, end, k);
        all := end;
        Log(s, Reserve(k), View());
      }
    }

    method SaveTxDataEndOffSet(k: Key, end: nat) returns (ok: bool)
      requires Cutting(cut) && Reached(View()) && lock.Counted? && lock.key == k && lock.end == end
      modifies this`ends, this`tick, this`lock, this`run
      ensures Reached(View()) && run == Then(old(run), if ok then Publish else PublishFails)
      ensures ok == !fault(old(tick)) && tick == old(tick) + 1
      ensures if ok then ends == old(ends)[k := end] && lock.Free?
              else ends == old(ends) && lock == Undo(old(lock).pre)
    {
      ghost var s := View();
      ok := Try();
      if ok {
        ends := ends[k := end];
        lock := Free;
        Log(s, Publish, View());
      } else {
        lock := Undo(lock.pre);
        Log(s, PublishFails, View());
      }
    }

    method RollbackAllDataEndOffset(pre: nat)
      requires Cutting(cut) && Reached(View()) && lock == Undo(pre)
      modifies this`all, this`tick, this`lock, this`run
      ensures Valid() && tick == old(tick) + 1
      ensures run == Then(old(run), if fault(old(tick)) then RollbackFails else Rollback)
      ensures all == if fault(old(tick)) then old(all) else pre
    {
      ghost var s := View();
      var ok := Try();
      lock := Free;
      if ok {
        all := pre;
        Log(s, Rollback, View());
      } else {
        Log(s, RollbackFails, View());
      }
    }

    /** Both offsets are written, or neither key nor reader notices: a failed rollback only leaves a gap. */
    method AtomicSyncDataEndOffset(pre: nat, end: nat, k: Key) returns (r: Outcome)
      requires Valid() && k !in ends && pre == all && end == all + k.size && end + 1 < UINT64
      modifies this`all, this`ends, this`tick, this`lock, this`run
      ensures Valid() && ExtendsBy(old(run), run, Storing(Some(k), {}))
      ensures r.Ok? <==> !fault(old(tick)) && !fault(old(tick) + 1)
      ensures r.Ok? ==> all == end && ends == old(ends)[k := end]
      ensures old(tick) <= tick && (r.Fail? ==> !Quiet(fault, old(tick), tick))
      ensures r.Fail? ==> r == Fail(WriteFailed) && ends == old(ends)
      ensures r.Fail? ==>
                all == if !fault(old(tick)) && fault(old(tick) + 1) && fault(old(tick) + 2) then end else pre
    {
      var ok := SaveAllDataEndOffset(end, k);
      if !ok {
        return Fail(WriteFailed);
      }
      ghost var counted := run;
      ok := SaveTxDataEndOffSet(k, end);
      ExtendsByTransitive(old(run), counted, run, Storing(Some(k), {}));
      if ok {
        return Ok;
      }
      ghost var undoing := run;
      RollbackAllDataEndOffset(pre);
      ExtendsByTransitive(old(run), undoing, run, Storing(Some(k), {}));
      return Fail(WriteFailed);
    }

    method SyncAddTxDataEndOffset(root: string, text: string) returns (r: Outcome)
      requires Valid() && Room(text)
      modifies this`all, this`ends, this`tick, this`lock, this`run
      ensures Valid() && ExtendsBy(old(run), run, Storing(KeyOf(root, text), {})) && old(tick) <= tick
      ensures r.Fail? && KeyOf(root, text).Some? ==> !Quiet(fault, old(tick), tick)
      ensures KeyOf(root, text).None? ==> r == Fail(Syntax) && View() == old(View())
      ensures KeyOf(root, text).Some? && KeyOf(root, text).value in old(ends) ==> r.Ok? && View() == old(View())
      ensures KeyOf(root, text).Some? && KeyOf(root, text).value !in old(ends) ==>
                && (r.Ok? <==> !fault(old(tick)) && !fault(old(tick) + 1))
                && (r.Ok? ==>
                      && ends == old(ends)[KeyOf(root, text).value := all]
                      && all == old(all) + KeyOf(root, text).value.size)
                && (r.Fail? ==> r == Fail(WriteFailed) && ends == old(ends))
    {
      var k := KeyOf(root, text);
      if k.None? {
        return Fail(Syntax);
      }
      if k.value in ends {
        return Ok;
      }
      InRange(all + k.value.size);
      r := AtomicSyncDataEndOffset(all, U64(all + k.value.size), k.value);
    }

    method SaveChunk(address: nat, data: seq<Byte>, ghost w: Writer) returns (r: Outcome)
      requires Valid() && w in writers && address == Target(w) && data == w.piece.data
      modifies this`chunks, this`tick, this`run
      ensures Valid() && tick == old(tick) + 1 && run == if fault(old(tick)) then old(run) else Then(old(run), Put(w))
      ensures if fault(old(tick)) then r == Fail(WriteFailed) && chunks == old(chunks)
              else r.Ok? && chunks == old(chunks)[address := data]
    {
      ghost var s := View();
      var ok := Try();
      if !ok {
        return Fail(WriteFailed);
      }
      chunks := chunks[address := data];
      Log(s, Put(w), View());
      return Ok;
    }

    /** Any chunk goes where its offset says, counted from the start of its transaction, or nothing changes. */
    method StoreChunk(c: Chunk) returns (r: Outcome)
      requires Valid()
      modifies this`chunks, this`tick, this`writers, this`run
      ensures Valid() && ExtendsBy(old(run), run, Storing(KeyOf(c.root, c.size), Pieces(c)))
      ensures var key, p := KeyOf(c.root, c.size), PieceOf(c);
              if key.None? || key.value !in ends then r == Fail(NotExist) && chunks == old(chunks) && tick == old(tick)
              else if p.None? then r == Fail(Syntax) && chunks == old(chunks) && tick == old(tick)
              else if fault(old(tick)) then r == Fail(WriteFailed) && chunks == old(chunks) && tick == old(tick) + 1
              else
                && r.Ok? && tick == old(tick) + 1
                && chunks == old(chunks)[PutAddress(Start(key.value, ends[key.value]), p.value) := p.value.data]
    {
      hide IsRun, Exec, Cutting;
      var key := KeyOf(c.root, c.size);
      if key.None? || key.value !in ends {
        return Fail(NotExist);
      }
      var k := key.value;
      var end := ends[k];
      var piece := PieceOf(c);
      if piece.None? {
        return Fail(Syntax);
      }
      ghost var s0 := View();
      writers := writers + {Writer(k, end, piece.value)};
      Log(s0, Load(k, piece.value), View());
      ghost var loaded := run;
      r := SaveChunk(PutAddress(Start(k, end), piece.value), piece.value.data, Writer(k, end, piece.value));
      ExtendsByTransitive(old(run), loaded, run, Storing(key, Pieces(c)));
    }

    /** All chunks cut from the data are stored, or some first ones and an error. Offsets are never touched. */
    method SetTxDataChunks(root: string, text: string, data: seq<Byte>) returns (r: Outcome, ghost stored: nat)
      requires Valid()
      modifies this`chunks, this`tick, this`writers, this`run
      ensures Valid() && ExtendsBy(old(run), run, Storing(KeyOf(root, text), PiecesOfData(data))) && old(tick) <= tick
      ensures data == [] ==> r == Fail(NullData)
      ensures data != [] && cut(data).None? ==> r == Fail(CutFailed)
      ensures data != [] && cut(data).Some? && cut(data).value.root != root ==> r == Fail(WrongRoot)
      ensures stored == 0 ==> chunks == old(chunks)
      ensures stored > 0 || r.Ok? ==>
                && cut(data).Some? && cut(data).value.root == root && stored <= |cut(data).value.parts|
                && KeyOf(root, text).Some? && KeyOf(root, text).value in ends
                && chunks == PutAll(old(chunks), Start(KeyOf(root, text).value, ends[KeyOf(root, text).value]),
                                    cut(data).value.parts, stored)
      ensures r.Ok? ==> data != [] && stored == |cut(data).value.parts|
      ensures data != [] && cut(data).Some? && cut(data).value.root == root && |data| <= UINT64
              && KeyOf(root, text).Some? && KeyOf(root, text).value in ends && Quiet(fault, old(tick), tick) ==>
                r.Ok?
    {
      stored := 0;
      if data == [] {
        return Fail(NullData), 0;
      }
      var made := cut(data);
      if made.None? {
        return Fail(CutFailed), 0;
      }
      ghost var key := KeyOf(root, text);
      ghost var parts := made.value.parts;
      FlattenLength(parts);
      var j := 0;
      while j < |made.value.parts|
        invariant Valid() && ExtendsBy(old(run), run, Storing(key, PiecesOf(parts))) && old(tick) <= tick
        invariant 0 <= j <= |parts| && stored == j
        invariant j == 0 ==> chunks == old(chunks)
        invariant j > 0 ==>
                    && made.value.root == root && key.Some? && key.value in ends
                    && chunks == PutAll(old(chunks), Start(key.value, ends[key.value]), parts, j)
      {
        if made.value.root != root {
          return Fail(WrongRoot), stored;
        }
        var c := ChunkAt(made.value, text, j);
        ghost var sofar := run;
        r := StoreChunk(c);
        GeneratedPiece(made.value, text, j);
        StoringMore(sofar, run, key, Pieces(c), PiecesOf(parts));
        ExtendsByTransitive(old(run), sofar, run, Storing(key, PiecesOf(parts)));
        if r.Fail? {
          return r, stored;
        }
        j := j + 1;
        stored := j;
      }
      return Ok, stored;
    }

    method SaveSubmitChunk(c: Chunk, verified: bool) returns (r: Outcome)
      requires Valid() && Room(c.size)
      modifies this`all, this`ends, this`chunks, this`tick, this`lock, this`writers, this`run
      ensures Valid() && ExtendsBy(old(run), run, Storing(KeyOf(c.root, c.size), Pieces(c)))
      ensures !verified ==> r == Fail(Invalid) && View() == old(View())
      ensures verified && KeyOf(c.root, c.size).None? ==> r == Fail(Syntax) && View() == old(View())
      ensures PieceOf(c).None? ==> r.Fail?
      ensures r.Fail? ==> chunks == old(chunks)
      ensures r.Ok? ==>
                var k, p := KeyOf(c.root, c.size).value, PieceOf(c).value;
                k in ends && chunks == old(chunks)[PutAddress(Start(k, ends[k]), p) := p.data]
      ensures verified && KeyOf(c.root, c.size).Some? && PieceOf(c).Some? && Quiet(fault, old(tick), tick) ==> r.Ok?
    {
      if !verified {
        return Fail(Invalid);
      }
      r := SyncAddTxDataEndOffset(c.root, c.size);
      StoringMore(old(run), run, KeyOf(c.root, c.size), {}, Pieces(c));
      if r.Fail? {
        return;
      }
      ghost var synced := run;
      r := StoreChunk(c);
      ExtendsByTransitive(old(run), synced, run, Storing(KeyOf(c.root, c.size), Pieces(c)));
    }

    lemma NowComplete(held: map<nat, seq<Byte>>, k: Key, parts: seq<seq<Byte>>)
      requires Valid() && k in ends && Clean(run, k, parts)
      requires chunks == PutAll(held, Start(k, ends[k]), parts, |parts|)
      ensures Complete(View(), k, parts, |parts|) && Complete(View(), k, parts, Needed(parts))
    {
      PutWhole(run, held, k, parts);
    }

    /** SaveTxMeta. */
    method SaveTxMeta(id: string, ghost key: Option<Key>) returns (ok: bool)
      requires Valid()
      modifies this`metas, this`tick, this`run
      ensures Valid() && ok == !fault(old(tick)) && tick == old(tick) + 1
      ensures metas == old(metas) + (if ok then {id} else {}) && ExtendsBy(old(run), run, Storing(key, {}))
      ensures !ok ==> run == old(run)
    {
      ghost var s := View();
      ok := Try();
      if ok {
        metas := metas + {id};
        Log(s, SaveMeta(id), View());
      }
    }

    /** A meta saved at any earlier point is still there. */
    lemma MetasStay()
      requires Valid()
      ensures forall earlier | Extends(earlier, run) && IsRun(INIT, earlier) :: Exec(INIT, earlier).metas <= metas
    {
      forall earlier | Extends(earlier, run) && IsRun(INIT, earlier) ensures Exec(INIT, earlier).metas <= metas {
        AssignedOnce(earlier, run);
      }
    }

    /** The chunks of the data are all present, and no others were ever stored for its transaction. */
    ghost predicate Holds(k: Key, parts: seq<seq<Byte>>)
      reads this
    {
      k in ends && Clean(run, k, parts) && Complete(View(), k, parts, |parts|)
    }

    /**
     A new key gets its interval and, if the submission carries data, all its chunks. A key that is already known
     is left as it is: the data of the submission is then not stored.
     */
    method SaveSubmitTx(tx: Tx, text: string, verified: bool) returns (r: Outcome)
      requires Valid() && Room(tx.size)
      modifies this
      ensures Valid()
      ensures ExtendsBy(old(run), run, Storing(KeyOf(tx.root, tx.size), PiecesOfOption(Codec.Base64Decode(text))))
      ensures !verified ==> r == Fail(Invalid) && View() == old(View())
      ensures verified && tx.id in old(metas) ==> r == Fail(ExistTx) && View() == old(View())
      ensures verified && tx.id !in old(metas) && fault(old(tick)) ==> r == Fail(WriteFailed) && View() == old(View())
      ensures metas == old(metas) + if verified && !fault(old(tick)) then {tx.id} else {}
      ensures forall earlier | Extends(earlier, old(run)) && IsRun(INIT, earlier) ::
                verified && tx.id in Exec(INIT, earlier).metas ==> r == Fail(ExistTx)
      ensures r.Ok? ==> tx.id in metas && KeyOf(tx.root, tx.size).Some? && KeyOf(tx.root, tx.size).value in ends
      ensures r.Ok? && KeyOf(tx.root, tx.size).value in old(ends) ==>
                View() == old(View()).(metas := old(metas) + {tx.id})
      ensures r.Ok? && KeyOf(tx.root, tx.size).value !in old(ends) && text != "" ==>
                && Codec.Base64Decode(text).Some? && cut(Codec.Base64Decode(text).value).Some?
                && var k, parts := KeyOf(tx.root, tx.size).value, cut(Codec.Base64Decode(text).value).value.parts;
                && chunks == PutAll(old(chunks), Start(k, ends[k]), parts, |parts|)
                && (old(Confined(run)) && IsPartition(k, parts) ==> Holds(k, parts))
      ensures verified && tx.id !in old(metas) && KeyOf(tx.root, tx.size).Some? && Quiet(fault, old(tick), tick)
              && (text == "" || Storable(tx.root, Codec.Base64Decode(text)))
              && (text != "" ==> |Codec.Base64Decode(text).value| <= UINT64) ==>
                r.Ok?
    {
      hide IsRun, Exec, Clean, Confined, Cutting, ParseUint, AllPresent, Complete, Storing, Codec.Base64Decode;
      if !verified {
        return Fail(Invalid);
      }
      MetasStay();
      if tx.id in metas {
        return Fail(ExistTx);
      }
      var key := KeyOf(tx.root, tx.size);
      var ok := SaveTxMeta(tx.id, key);
      if !ok {
        return Fail(WriteFailed);
      }
      StoringMore(old(run), run, key, {}, PiecesOfOption(Codec.Base64Decode(text)));
      ghost var saved := run;
      if key.Some? && key.value in ends {
        return Ok;
      }
      r := SyncAddTxDataEndOffset(tx.root, tx.size);
      StoringMore(saved, run, key, {}, PiecesOfOption(Codec.Base64Decode(text)));
      ExtendsByTransitive(old(run), saved, run, Storing(key, PiecesOfOption(Codec.Base64Decode(text))));
      if r.Fail? {
        return;
      }
      if text != "" {
        var data := Codec.Base64Decode(text);
        if data.None? {
          return Fail(Syntax);
        }
        ghost var synced := run;
        ghost var stored;
        r, stored := SetTxDataChunks(tx.root, tx.size, data.value);
        ExtendsByTransitive(old(run), synced, run, Storing(key, PiecesOfOption(Codec.Base64Decode(text))));
        ghost var parts := if r.Ok? then cut(data.value).value.parts else [];
        if r.Ok? && old(Confined(run)) && IsPartition(key.value, parts) {
          NewKeyClean(old(run), run, key.value, parts);
          NowComplete(old(chunks), key.value, parts);
        }
      }
    }

    /** The reader: the data up to the last needed chunk, or an error; never a part of it, never other bytes. */
    method GetArTxData(root: string, text: string, largest: nat, loads: nat, ghost parts: seq<seq<Byte>>)
      returns (r: Fetched)
      requires Valid()
      ensures KeyOf(root, text).None? ==> r == NoData(Syntax)
      ensures KeyOf(root, text).Some? ==>
                var k := KeyOf(root, text).value;
                if k.size == 0 then r == Data([])
                else if k.size > largest then r == NoData(Panics)
                else if k !in ends then r == NoData(NotExist)
                else
                  && r == Answer(GetData(View(), k, loads))
                  && (Confined(run) && loads >= k.size ==> r != NoData(GivenUp))
                  && (Clean(run, k, parts) && loads >= |parts| ==>
                        r == if Complete(View(), k, parts, Needed(parts)) then Data(Flatten(parts[..Needed(parts)]))
                             else NoData(NotExist))
    {
      hide IsRun, Exec, Clean, Confined, Cutting, ParseUint, Complete, Needed, U64, Flatten;
      var key := KeyOf(root, text);
      if key.None? {
        return NoData(Syntax);
      }
      var k := key.value;
      if k.size == 0 {
        return Data([]);
      }
      if k.size > largest {
        return NoData(Panics);
      }
      if k !in ends {
        return NoData(NotExist);
      }
      var data, end := [], ends[k];
      var start := Start(k, end);
      var i: nat := 0;
      var left := loads;
      ghost var whole := GetData(View(), k, loads);
      AnswerIsRight(run, k, parts, loads);
      while U64(i + start) < end
        invariant var rest := ReadLoop(chunks, start, i, end, left);
                  whole == if rest.Done? then Done(data + rest.data) else rest
        decreases left
      {
        var p := U64(i + start);
        if p !in chunks {
          return NoData(NotExist);
        }
        if left == 0 {
          return NoData(GivenUp);
        }
        data := data + chunks[p];
        i := i + |chunks[p]|;
        left := left - 1;
      }
      return Data(data);
    }

    lemma NewIsClean(r: Run<Action>, t: Run<Action>, k: Key, fetched: Option<seq<Byte>>, parts: seq<seq<Byte>>)
      requires Cutting(cut) && IsRun(INIT, r) && ExtendsBy(r, t, Storing(Some(k), PiecesOfOption(fetched)))
      ensures k !in Exec(INIT, r).ends && Confined(r) && fetched.Some? && CutInto(fetched.value, parts)
              && IsPartition(k, parts) ==>
                Clean(t, k, parts)
    {
      if k !in Exec(INIT, r).ends && Confined(r) && fetched.Some? && CutInto(fetched.value, parts)
         && IsPartition(k, parts) {
        NewKeyClean(r, t, k, parts);
      }
    }

    /** Readable data is kept as it is, and in place of unreadable data all fetched chunks are put. */
    ghost predicate SyncedFrom(held: map<nat, seq<Byte>>, k: Key, fetched: Option<seq<Byte>>, loads: nat)
      requires Cutting(cut)
      reads this
    {
      && k in ends
      && if ReadLoop(held, Start(k, ends[k]), 0, ends[k], loads).Done? then chunks == held
         else
           && Storable(k.root, fetched)
           && var parts := cut(fetched.value).value.parts;
           chunks == PutAll(held, Start(k, ends[k]), parts, |parts|)
    }

    /** The second half of FetchAndStoreTx: local data is kept, otherwise the fetched data is stored. */
    method SyncData(root: string, text: string, fetched: Option<seq<Byte>>, largest: nat, loads: nat,
                    ghost parts: seq<seq<Byte>>)
      returns (r: Outcome)
      requires Valid() && KeyOf(root, text).Some? && KeyOf(root, text).value in ends
      modifies this`chunks, this`tick, this`writers, this`run
      ensures Valid() && ExtendsBy(old(run), run, Storing(KeyOf(root, text), PiecesOfOption(fetched)))
      ensures old(tick) <= tick
      ensures var k := KeyOf(root, text).value;
              r.Ok? && k.size > 0 ==>
                && k.size <= largest && SyncedFrom(old(chunks), k, fetched, loads)
                && (Clean(run, k, parts) && loads >= |parts| && (fetched.Some? ==> CutInto(fetched.value, parts)) ==>
                      Complete(View(), k, parts, Needed(parts)))
      ensures var k := KeyOf(root, text).value;
              Storable(root, fetched) && |fetched.value| <= UINT64 && Quiet(fault, old(tick), tick)
              && k.size <= largest && k.size <= loads && old(Confined(run)) ==>
                r.Ok?
    {
      hide IsRun, Exec, Clean, Confined, IsPartition, Cutting, ParseUint, AllPresent, Complete, Storing;
      hide PutAll, Needed, Start, PiecesOf, Flatten, ReadLoop;
      ghost var k := KeyOf(root, text).value;
      if KeyOf(root, text).value.size == 0 {
        return Ok;
      }
      var local := GetArTxData(root, text, largest, loads, parts);
      if local.Data? {
        return Ok;
      }
      if local.error.Panics? || local.error.GivenUp? {
        return Fail(local.error);
      }
      if fetched.None? {
        return Fail(FetchFailed);
      }
      ghost var stored;
      r, stored := SetTxDataChunks(root, text, fetched.value);
      if r.Ok? && Clean(run, k, parts) && CutInto(fetched.value, parts) {
        NowComplete(old(chunks), k, parts);
      }
    }

    /** After success a reader finds all chunks it needs of the transaction, local or fetched. */
    method FetchAndStoreTx(
      tx: Tx, fetched: Option<seq<Byte>>, largest: nat, loads: nat, ghost parts: seq<seq<Byte>>)
      returns (r: Outcome)
      requires Valid() && Room(tx.size)
      modifies this
      ensures Valid() && ExtendsBy(old(run), run, Storing(KeyOf(tx.root, tx.size), PiecesOfOption(fetched)))
      ensures metas == old(metas) + if !fault(old(tick)) then {tx.id} else {}
      ensures r.Ok? ==> tx.id in metas && KeyOf(tx.root, tx.size).Some? && KeyOf(tx.root, tx.size).value in ends
      ensures r.Ok? && KeyOf(tx.root, tx.size).value.size > 0 ==>
                var k := KeyOf(tx.root, tx.size).value;
                && k.size <= largest && SyncedFrom(old(chunks), k, fetched, loads)
                && (Clean(run, k, parts) && loads >= |parts| && (fetched.Some? ==> CutInto(fetched.value, parts)) ==>
                      Complete(View(), k, parts, Needed(parts)))
                && (k !in old(ends) && old(Confined(run)) && fetched.Some? && CutInto(fetched.value, parts)
                    && IsPartition(k, parts) && loads >= |parts| ==>
                      Clean(run, k, parts) && Complete(View(), k, parts, Needed(parts)))
      ensures KeyOf(tx.root, tx.size).Some? && Storable(tx.root, fetched) && |fetched.value| <= UINT64
              && Quiet(fault, old(tick), tick)
              && KeyOf(tx.root, tx.size).value.size <= largest && KeyOf(tx.root, tx.size).value.size <= loads
              && old(Confined(run)) ==>
                r.Ok?
    {
      hide IsRun, Exec, Clean, Confined, IsPartition, Cutting, ParseUint, AllPresent, Complete, Storing, PiecesOf;
      ghost var key := KeyOf(tx.root, tx.size);
      if tx.id !in metas {
        var ok := SaveTxMeta(tx.id, key);
        if !ok {
          return Fail(WriteFailed);
        }
      }
      ghost var saved := run;
      r := SyncAddTxDataEndOffset(tx.root, tx.size);
      ExtendsByTransitive(old(run), saved, run, Storing(key, {}));
      if old(Confined(run)) {
        StoringConfined(old(run), run, key, {});
      }
      StoringMore(old(run), run, key, {}, PiecesOfOption(fetched));
      if r.Fail? {
        return;
      }
      ghost var synced := run;
      r := SyncData(tx.root, tx.size, fetched, largest, loads, parts);
      ExtendsByTransitive(old(run), synced, run, Storing(key, PiecesOfOption(fetched)));
      if r.Ok? {
        NewIsClean(old(run), run, key.value, fetched, parts);
      }
    }
  }
}
