/**
 The weave address space: every (dataRoot, dataSize) owns an interval of one growing offset line, and the chunks
 of all transactions share one map keyed by absolute offset.

 A step is one store write of one writer, or the load of an end offset before it. The three writers share
 syncAddTxDataEndOffset, whose critical section is held by `lock`, and storeChunk, which runs unlocked and puts
 whatever bytes it is given wherever their offset says.
 */
module Weave {
  import opened Basics

  /** What an interval is allocated for: the data root and the size, both as its text and as the number it parses to. */
  datatype Key = Key(root: string, text: string, size: nat)

  /** None when the size is not a uint64. */
  function KeyOf(root: string, text: string): Option<Key> {
    var n := ParseUint(text);
    if n.None? then None else Some(Key(root, text, n.value))
  }

  /** Another root or another text for the size is another key, and the key's size is the parsed one. */
  lemma KeysDistinct(root: string, text: string, other: string, size: string)
    requires KeyOf(root, text).Some?
    ensures Some(KeyOf(root, text).value.size) == ParseUint(text)
    ensures KeyOf(root, text) == KeyOf(other, size) <==> root == other && text == size
  {}

  /** What is hashed to name a key, root and size put together, tells keys apart whose roots have one length. */
  lemma NamesApart(root: string, text: string, other: string, size: string)
    requires |root| == |other|
    ensures root + text == other + size <==> root == other && text == size
  {
    assert (root + text)[..|root|] == root && (root + text)[|root|..] == text;
    assert (other + size)[..|other|] == other && (other + size)[|other|..] == size;
  }

  /** It need not for roots of different lengths. */
  lemma NamesMeet()
    ensures "a1" + "2" == "a" + "12" && KeyOf("a1", "2") != KeyOf("a", "12")
  {
    assert IsDigits("2") && "2"[..0] == "" && Decimal("2") == 2;
  }

  // ---- strconv.ParseUint(s, 10, 64) ----

  predicate IsDigits(s: string) {
    forall i :: 0 <= i < |s| ==> '0' <= s[i] <= '9'
  }

  function Decimal(s: string): nat
    requires IsDigits(s)
  {
    if s == "" then 0
    else Decimal(s[..|s| - 1]) * 10 + (s[|s| - 1] as int - '0' as int)
  }

  function ParseUint(s: string): (n: Option<nat>)
    ensures n.Some? ==> n.value < UINT64
  {
    if s == "" || !IsDigits(s) || Decimal(s) >= UINT64 then None else Some(Decimal(s))
  }

  /** strconv.Itoa on a number that is not negative. */
  function DecimalText(n: nat): (s: string)
    ensures s != "" && IsDigits(s)
  {
    var last := ['0' + (n % 10) as char];
    if n < 10 then last else DecimalText(n / 10) + last
  }

  lemma {:induction false} DecimalRoundTrip(n: nat)
    ensures Decimal(DecimalText(n)) == n
  {
    if n >= 10 {
      DecimalRoundTrip(n / 10);
      var text := DecimalText(n);
      assert text[..|text| - 1] == DecimalText(n / 10);
    }
  }

  function Pow10(n: nat): nat {
    if n == 0 then 1 else 10 * Pow10(n - 1)
  }

  /** The value by digits: the first of them counts the most, and each next one a tenth of it. */
  lemma {:induction false} DecimalValue(c: char, rest: string)
    requires '0' <= c <= '9' && IsDigits(rest)
    ensures IsDigits([c] + rest)
    ensures Decimal([c] + rest) == (c as int - '0' as int) * Pow10(|rest|) + Decimal(rest)
  {
    if rest == "" {
      assert ([c] + rest)[..0] == "";
    } else {
      var front := rest[..|rest| - 1];
      DecimalValue(c, front);
      assert ([c] + rest)[..|rest|] == [c] + front;
      assert 10 * ((c as int - '0' as int) * Pow10(|front|)) == (c as int - '0' as int) * Pow10(|rest|);
    }
  }

  lemma Hundreds(a: char, b: char, c: char)
    requires '0' <= a <= '9' && '0' <= b <= '9' && '0' <= c <= '9'
    ensures IsDigits([a, b, c])
    ensures ParseUint([a, b, c]) ==
            Some((a as int - '0' as int) * 100 + (b as int - '0' as int) * 10 + (c as int - '0' as int))
  {
    assert [a, b, c][..2] == [a, b] && [a, b][..1] == [a] && [a][..0] == "";
    assert IsDigits([a]) && IsDigits([a, b]) && IsDigits([a, b, c]);
    assert Decimal([a]) == a as int - '0' as int;
    assert Decimal([a, b]) == Decimal([a]) * 10 + (b as int - '0' as int);
  }

  /** Nothing but digits parses, no digits do not, and the largest uint64 is the last number that does. */
  lemma ParseUintExact(s: string)
    ensures ParseUint(s).Some? <==> s != "" && IsDigits(s) && Decimal(s) < 0x1_0000_0000_0000_0000
    ensures ParseUint("").None? && ParseUint("+5").None? && ParseUint("-5").None?
  {
    assert "+5"[0] == '+' && "-5"[0] == '-';
  }

  /** uint64 wrap-around. */
  function U64(x: int): nat { if 0 <= x < UINT64 then x else x % UINT64 }

  // ---- partitions of a transaction's data ----

  /** Length of the first i chunks. */
  function Pre(parts: seq<seq<Byte>>, i: nat): nat
    requires i <= |parts|
  {
    if i == 0 then 0 else Pre(parts, i - 1) + |parts[i - 1]|
  }

  function Flatten(parts: seq<seq<Byte>>): seq<Byte> {
    if parts == [] then [] else parts[0] + Flatten(parts[1..])
  }

  ghost predicate NoneEmpty(parts: seq<seq<Byte>>) {
    forall i :: 0 <= i < |parts| ==> |parts[i]| >= 1
  }

  /** Chunks are not empty and make up the stated size. */
  ghost predicate IsPartition(k: Key, parts: seq<seq<Byte>>) {
    NoneEmpty(parts) && Pre(parts, |parts|) == k.size
  }

  lemma {:induction false} PreMono(parts: seq<seq<Byte>>, i: nat, j: nat)
    requires i <= j <= |parts| && NoneEmpty(parts)
    ensures Pre(parts, i) + (j - i) <= Pre(parts, j)
  {
    if i < j {
      PreMono(parts, i, j - 1);
    }
  }

  /** Some bytes and, counted from the start of the transaction, the offset of the last of them. */
  datatype Piece = Piece(offset: nat, data: seq<Byte>)

  /** The bytes of the piece are bytes of a transaction of this size. */
  predicate Inside(k: Key, p: Piece) {
    1 <= |p.data| <= p.offset + 1 <= k.size
  }

  /** The piece is chunk i. */
  predicate IsChunk(parts: seq<seq<Byte>>, p: Piece, i: nat) {
    i < |parts| && p.data == parts[i] && p.offset + 1 == Pre(parts, i + 1)
  }

  predicate InPartition(parts: seq<seq<Byte>>, p: Piece) {
    exists i: nat | i < |parts| :: IsChunk(parts, p, i)
  }

  /** Chunk i with the offset of its last byte, as generateChunks gives it. */
  function PieceAt(parts: seq<seq<Byte>>, i: nat): (p: Piece)
    requires i < |parts| && |parts[i]| >= 1
    ensures IsChunk(parts, p, i)
  {
    Piece(Pre(parts, i + 1) - 1, parts[i])
  }

  ghost function PiecesOf(parts: seq<seq<Byte>>): set<Piece>
    requires NoneEmpty(parts)
  {
    set i | 0 <= i < |parts| :: PieceAt(parts, i)
  }

  // ---- the machine ----

  /** Who holds endOffsetLocker, and how far it got. */
  datatype Lock =
    | Free
    | Counted(pre: nat, end: nat, key: Key) // allDataEndOffset is written, the key's end offset is not yet
    | Undo(pre: nat)                        // the key's end offset could not be written

  /** A storeChunk call that has loaded its end offset and is about to put a piece. */
  datatype Writer = Writer(key: Key, end: nat, piece: Piece)

  datatype State = State(
    all: nat, ends: map<Key, nat>, chunks: map<nat, seq<Byte>>, metas: set<string>, lock: Lock, writers: set<Writer>)

  datatype Action =
    | Reserve(key: Key)           // SaveAllDataEndOffset succeeds
    | Publish                     // SaveTxDataEndOffSet succeeds
    | PublishFails
    | Rollback                    // RollbackAllDataEndOffset succeeds
    | RollbackFails
    | Load(key: Key, piece: Piece) // LoadTxDataEndOffSet inside storeChunk
    | Put(w: Writer)              // SaveChunk succeeds; a failed put changes nothing
    | SaveMeta(id: string)        // SaveTxMeta succeeds
    | Crash

  const INIT: State := State(0, map[], map[], {}, Free, {})

  /** txDataEndOffset - txSize + 1 */
  function Start(k: Key, end: nat): nat
  {
    U64(end - k.size + 1)
  }

  /** Where storeChunk puts a chunk: its last byte's offset from the start, minus its length, plus one. */
  function PutAddress(start: nat, p: Piece): nat {
    U64(U64(start + p.offset) - |p.data| + 1)
  }

  function Target(w: Writer): nat {
    PutAddress(Start(w.key, w.end), w.piece)
  }

  predicate Enabled(s: State, a: Action) {
    match a
    case Reserve(k) => s.lock.Free? && k !in s.ends && k.size < UINT64
    case Publish => s.lock.Counted?
    case PublishFails => s.lock.Counted?
    case Rollback => s.lock.Undo?
    case RollbackFails => s.lock.Undo?
    case Load(k, p) => k in s.ends && p.offset < UINT64
    case Put(w) => w in s.writers
    case SaveMeta(_) => true
    case Crash => true
  }

  function Next(s: State, a: Action): State
    requires Enabled(s, a)
  {
    match a
    case Reserve(k) =>
      var end := U64(s.all + k.size);
      s.(all := end, lock := Counted(s.all, end, k))
    case Publish => s.(ends := s.ends[s.lock.key := s.lock.end], lock := Free)
    case PublishFails => s.(lock := Undo(s.lock.pre))
    case Rollback => s.(all := s.lock.pre, lock := Free)
    case RollbackFails => s.(lock := Free)
    case Load(k, p) => s.(writers := s.writers + {Writer(k, s.ends[k], p)})
    case Put(w) => s.(chunks := s.chunks[Target(w) := w.piece.data])
    case SaveMeta(id) => s.(metas := s.metas + {id})
    case Crash => s.(lock := Free, writers := {})
  }

  /** The counter has room: neither it nor the reader's position one past it wraps. */
  predicate HasRoom(s: State, a: Action) {
    a.Reserve? ==> s.all + a.key.size + 1 < UINT64
  }

  /** A run from s whose reservations all have room. */
  ghost predicate IsRun(s: State, run: Run<Action>)
    decreases run, 0
  {
    run.Then? ==>
      && IsRun(s, run.before)
      && Enabled(Exec(s, run.before), run.act)
      && HasRoom(Exec(s, run.before), run.act)
  }

  ghost function Exec(s: State, run: Run<Action>): State
    requires IsRun(s, run)
    decreases run, 1
  {
    if run.Begin? then s else Next(Exec(s, run.before), run.act)
  }

  /** A crash can come at any time; it frees the lock, ends every writer and leaves what is written. */
  lemma CrashForgets(s: State)
    ensures Enabled(s, Crash)
    ensures var t := Next(s, Crash);
            t.lock.Free? && t.writers == {} && s == t.(lock := s.lock, writers := s.writers)
  {}

  /** The actions that store some of the given pieces of one key; those that end a critical section are its holder's. */
  function Storing(k: Option<Key>, pieces: set<Piece>): Action -> bool {
    (a: Action) =>
      match a
      case Reserve(x) => Some(x) == k
      case Load(x, p) => Some(x) == k && p in pieces
      case Put(w) => Some(w.key) == k && w.piece in pieces
      case Crash => false
      case _ => true
  }

  /** Every piece stored in the run lies inside its own transaction. */
  ghost predicate Confined(run: Run<Action>) {
    run.Then? ==> Confined(run.before) && (run.act.Load? ==> Inside(run.act.key, run.act.piece))
  }

  /** Every piece stored for k in the run is a chunk of one partition. */
  ghost predicate Authentic(run: Run<Action>, k: Key, parts: seq<seq<Byte>>) {
    run.Then? ==>
      Authentic(run.before, k, parts) && (run.act.Load? && run.act.key == k ==> InPartition(parts, run.act.piece))
  }

  lemma {:induction false} StoringMore(
    r: Run<Action>, t: Run<Action>, k: Option<Key>, pieces: set<Piece>, more: set<Piece>)
    requires ExtendsBy(r, t, Storing(k, pieces)) && pieces <= more
    ensures ExtendsBy(r, t, Storing(k, more))
  {
    if r != t {
      StoringMore(r, t.before, k, pieces, more);
    }
  }

  lemma {:induction false} StoringConfined(r: Run<Action>, t: Run<Action>, k: Option<Key>, pieces: set<Piece>)
    requires ExtendsBy(r, t, Storing(k, pieces)) && Confined(r)
    requires k.Some? ==> forall p :: p in pieces ==> Inside(k.value, p)
    ensures Confined(t)
  {
    if r != t {
      StoringConfined(r, t.before, k, pieces);
    }
  }

  lemma {:induction false} StoringAuthentic(
    r: Run<Action>, t: Run<Action>, k: Option<Key>, pieces: set<Piece>, l: Key, parts: seq<seq<Byte>>)
    requires ExtendsBy(r, t, Storing(k, pieces)) && Authentic(r, l, parts)
    requires Some(l) == k ==> forall p :: p in pieces ==> InPartition(parts, p)
    ensures Authentic(t, l, parts)
  {
    if r != t {
      StoringAuthentic(r, t.before, k, pieces, l, parts);
    }
  }

  // ---- allocation, over every run ----

  /** No published interval reaches past this offset. */
  function Limit(s: State): nat {
    match s.lock
    case Free => s.all
    case Counted(pre, _, _) => pre
    case Undo(pre) => pre
  }

  ghost predicate Allocated(s: State) {
    && s.all + 1 < UINT64 && Limit(s) <= s.all
    && (s.lock.Counted? ==>
          && s.lock.key !in s.ends
          && s.all == s.lock.end == s.lock.pre + s.lock.key.size)
    && (forall k :: k in s.ends ==> k.size <= s.ends[k] <= Limit(s))
  }

  /** The intervals [end - size + 1, end] of distinct keys do not meet. */
  ghost predicate Disjoint(s: State) {
    forall k, l :: k in s.ends && l in s.ends && k != l ==>
      s.ends[k] <= s.ends[l] - l.size || s.ends[l] <= s.ends[k] - k.size
  }

  ghost predicate WritersInformed(s: State) {
    forall w :: w in s.writers ==> w.key in s.ends && w.end == s.ends[w.key] && w.piece.offset < UINT64
  }

  ghost predicate Inv(s: State) {
    Allocated(s) && Disjoint(s) && WritersInformed(s)
  }

  lemma InRange(x: nat)
    requires x < UINT64
    ensures U64(x) == x
  {}

  lemma AllocatedPreserved(s: State, a: Action)
    requires Inv(s) && Enabled(s, a) && HasRoom(s, a)
    ensures Allocated(Next(s, a))
  {
    if a.Reserve? {
      InRange(s.all + a.key.size);
    }
  }

  lemma DisjointPreserved(s: State, a: Action)
    requires Allocated(s) && Disjoint(s) && Enabled(s, a)
    ensures Disjoint(Next(s, a))
  {}

  lemma WritersPreserved(s: State, a: Action)
    requires Allocated(s) && WritersInformed(s) && Enabled(s, a)
    ensures WritersInformed(Next(s, a))
  {}

  /**
   Allocation over every run: with any write failing, a crash after any of them and any pieces stored, the intervals
   stay allocated below the counter and disjoint.
   */
  lemma {:induction false} InvHolds(run: Run<Action>)
    requires IsRun(INIT, run)
    ensures Inv(Exec(INIT, run))
  {
    if run.Then? {
      var s := Exec(INIT, run.before);
      InvHolds(run.before);
      AllocatedPreserved(s, run.act);
      DisjointPreserved(s, run.act);
      WritersPreserved(s, run.act);
    }
  }

  /** Offset x belongs to the interval of key k. */
  predicate Owns(s: State, k: Key, x: int)
    requires k in s.ends
  {
    s.ends[k] - k.size + 1 <= x <= s.ends[k]
  }

  /** No offset belongs to two transactions, and all of them lie between one and the counter. */
  lemma AllocationSafety(run: Run<Action>, k: Key, l: Key, x: int)
    requires IsRun(INIT, run)
    ensures var s := Exec(INIT, run);
            && (k in s.ends && Owns(s, k, x) ==> 1 <= x <= s.all < UINT64)
            && (k in s.ends && l in s.ends && Owns(s, k, x) && Owns(s, l, x) ==> k == l)
  {
    InvHolds(run);
  }

  /** Every end offset of s is the same in t, and what is stored in s, by address or by id, is stored in t. */
  ghost predicate Keeps(s: State, t: State) {
    && s.metas <= t.metas
    && (forall k :: k in s.ends ==> k in t.ends && t.ends[k] == s.ends[k])
    && (forall a :: a in s.chunks ==> a in t.chunks)
  }

  lemma StepKeeps(s: State, a: Action)
    requires Inv(s) && Enabled(s, a)
    ensures Keeps(s, Next(s, a))
  {}

  /** An end offset is assigned at most once, and a stored meta stays. */
  lemma {:induction false} AssignedOnce(run: Run<Action>, longer: Run<Action>)
    requires IsRun(INIT, longer) && Extends(run, longer)
    ensures IsRun(INIT, run) && Keeps(Exec(INIT, run), Exec(INIT, longer))
  {
    if run != longer {
      AssignedOnce(run, longer.before);
      InvHolds(longer.before);
      StepKeeps(Exec(INIT, longer.before), longer.act);
    }
  }

  // ---- where pieces go ----

  lemma WrapsOnce(x: int)
    requires 0 - UINT64 <= x < 2 * UINT64
    ensures U64(x) == if x < 0 then x + UINT64 else if x < UINT64 then x else x - UINT64
  {}

  /** In uint64 arithmetic, the bytes of a piece land in its own interval exactly if the piece is inside. */
  lemma InsideExact(k: Key, end: nat, p: Piece)
    requires k.size <= end && end + 1 < UINT64 && p.offset < UINT64
    ensures var a := PutAddress(Start(k, end), p);
            Inside(k, p) <==> p.data != [] && end - k.size + 1 <= a && a + |p.data| - 1 <= end
  {
    var start := end - k.size + 1;
    WrapsOnce(start);
    WrapsOnce(start + p.offset);
    if p.data != [] && |p.data| <= UINT64 {
      WrapsOnce(U64(start + p.offset) - |p.data| + 1);
    }
  }

  /** The address of an inside piece. */
  lemma InsideAddress(k: Key, end: nat, p: Piece)
    requires k.size <= end && end + 1 < UINT64 && Inside(k, p)
    ensures PutAddress(Start(k, end), p) == end - k.size + 1 + p.offset + 1 - |p.data|
  {
    var start := end - k.size + 1;
    InRange(start);
    InRange(start + p.offset);
    InRange(start + p.offset - |p.data| + 1);
  }

  lemma ChunkInside(parts: seq<seq<Byte>>, p: Piece, i: nat)
    requires NoneEmpty(parts) && IsChunk(parts, p, i)
    ensures p.offset + 1 - |p.data| == Pre(parts, i) && 1 <= |p.data| <= p.offset + 1 <= Pre(parts, |parts|)
  {
    PreMono(parts, i + 1, |parts|);
  }

  /** A chunk of data that is not too long goes to the start of the transaction plus the chunks before it. */
  lemma ChunkAddress(k: Key, end: nat, parts: seq<seq<Byte>>, p: Piece, i: nat)
    requires k.size <= end && end + 1 < UINT64 && NoneEmpty(parts) && Pre(parts, |parts|) <= k.size
    requires IsChunk(parts, p, i)
    ensures PutAddress(Start(k, end), p) == Start(k, end) + Pre(parts, i)
  {
    ChunkInside(parts, p, i);
    InsideAddress(k, end, p);
    InRange(end - k.size + 1);
  }

  /** All chunks of some data are inside a transaction exactly if the data is not longer than its stated size. */
  lemma ChunksInsideExact(k: Key, parts: seq<seq<Byte>>)
    requires NoneEmpty(parts)
    ensures (forall p :: InPartition(parts, p) ==> Inside(k, p)) <==> Pre(parts, |parts|) <= k.size || parts == []
  {
    forall p, i: nat | i < |parts| && IsChunk(parts, p, i) && Pre(parts, |parts|) <= k.size ensures Inside(k, p) {
      ChunkInside(parts, p, i);
    }
    if parts != [] {
      PreMono(parts, |parts| - 1, |parts|);
      assert InPartition(parts, PieceAt(parts, |parts| - 1));
    }
  }

  // ---- confined runs ----

  /** The chunk at address a lies in the interval of key k. */
  ghost predicate Within(s: State, a: nat, k: Key) {
    && k in s.ends && a in s.chunks && |s.chunks[a]| >= 1
    && s.ends[k] - k.size + 1 <= a && a + |s.chunks[a]| - 1 <= s.ends[k]
  }

  ghost predicate ChunksOwned(s: State) {
    forall a :: a in s.chunks ==> exists k :: Within(s, a, k)
  }

  ghost predicate WritersConfined(s: State) {
    forall w :: w in s.writers ==> Inside(w.key, w.piece)
  }

  lemma OwnedPreserved(s: State, a: Action)
    requires Inv(s) && ChunksOwned(s) && WritersConfined(s) && Enabled(s, a)
    ensures ChunksOwned(Next(s, a))
  {
    var t := Next(s, a);
    forall b | b in t.chunks ensures exists k :: Within(t, b, k) {
      if a.Put? && b == Target(a.w) {
        InsideExact(a.w.key, a.w.end, a.w.piece);
        assert Within(t, b, a.w.key);
      } else {
        var k :| Within(s, b, k);
        assert Within(t, b, k);
      }
    }
  }

  /** While all stored pieces are inside their transactions, every stored chunk lies in one transaction's interval. */
  lemma {:induction false} OwnedHolds(run: Run<Action>)
    requires IsRun(INIT, run) && Confined(run)
    ensures ChunksOwned(Exec(INIT, run)) && WritersConfined(Exec(INIT, run))
  {
    if run.Then? {
      OwnedHolds(run.before);
      InvHolds(run.before);
      OwnedPreserved(Exec(INIT, run.before), run.act);
    }
  }

  // ---- the chunks of one transaction ----

  /** Where an address is that of a chunk, it holds that chunk. */
  ghost predicate InPlace(chunks: map<nat, seq<Byte>>, start: nat, parts: seq<seq<Byte>>) {
    forall a, i {:trigger a in chunks, parts[i]} ::
      0 <= i < |parts| && a in chunks && a == start + Pre(parts, i) ==> chunks[a] == parts[i]
  }

  ghost predicate KeyInPlace(s: State, k: Key, parts: seq<seq<Byte>>) {
    k in s.ends && k.size <= s.ends[k] ==> InPlace(s.chunks, s.ends[k] - k.size + 1, parts)
  }

  ghost predicate WritersAuthentic(s: State, k: Key, parts: seq<seq<Byte>>) {
    forall w :: w in s.writers && w.key == k ==> InPartition(parts, w.piece)
  }

  lemma PlaceInside(k: Key, parts: seq<seq<Byte>>, i: nat)
    requires IsPartition(k, parts) && i < |parts|
    ensures Pre(parts, i) < k.size
  {
    PreMono(parts, i, |parts|);
  }

  lemma SamePlace(parts: seq<seq<Byte>>, i: nat, j: nat)
    requires NoneEmpty(parts) && i < |parts| && j < |parts| && Pre(parts, i) == Pre(parts, j)
    ensures i == j
  {
    PreMono(parts, if i < j then i else j, if i < j then j else i);
  }

  /** A put never spoils a chunk of k: it is another transaction's, or the right chunk. */
  lemma PutInPlace(s: State, w: Writer, k: Key, parts: seq<seq<Byte>>)
    requires Inv(s) && WritersConfined(s) && WritersAuthentic(s, k, parts) && IsPartition(k, parts)
    requires KeyInPlace(s, k, parts) && Enabled(s, Put(w))
    ensures KeyInPlace(Next(s, Put(w)), k, parts)
  {
    if k in s.ends {
      var start := s.ends[k] - k.size + 1;
      InsideAddress(w.key, w.end, w.piece);
      forall i: nat | i < |parts| && Target(w) == start + Pre(parts, i) ensures w.piece.data == parts[i] {
        PlaceInside(k, parts, i);
        if w.key == k {
          var j: nat :| j < |parts| && IsChunk(parts, w.piece, j);
          ChunkInside(parts, w.piece, j);
          SamePlace(parts, i, j);
        }
      }
    }
  }

  /** A new interval is empty. */
  lemma PublishInPlace(s: State, k: Key, parts: seq<seq<Byte>>)
    requires Inv(s) && ChunksOwned(s) && s.lock.Counted? && s.lock.key == k
    ensures KeyInPlace(Next(s, Publish), k, parts)
  {
    forall a | a in s.chunks ensures a <= s.lock.pre {
      var l :| Within(s, a, l);
    }
  }

  /** No storeChunk of a key starts before its end offset is published. */
  lemma {:induction false} NeverLoaded(run: Run<Action>, k: Key, parts: seq<seq<Byte>>)
    requires IsRun(INIT, run) && k !in Exec(INIT, run).ends
    ensures Authentic(run, k, parts)
  {
    if run.Then? {
      InvHolds(run.before);
      StepKeeps(Exec(INIT, run.before), run.act);
      NeverLoaded(run.before, k, parts);
    }
  }

  /** All pieces are inside their transactions, and those of k are the chunks of one partition of it. */
  ghost predicate Clean(run: Run<Action>, k: Key, parts: seq<seq<Byte>>) {
    IsPartition(k, parts) && Confined(run) && Authentic(run, k, parts)
  }

  /** A transaction allocated after r whose pieces are the chunks of data of the stated size. */
  lemma NewKeyClean(r: Run<Action>, t: Run<Action>, k: Key, parts: seq<seq<Byte>>)
    requires IsRun(INIT, r) && k !in Exec(INIT, r).ends && Confined(r) && IsPartition(k, parts)
    requires ExtendsBy(r, t, Storing(Some(k), PiecesOf(parts)))
    ensures Clean(t, k, parts)
  {
    forall p | p in PiecesOf(parts) ensures InPartition(parts, p) && Inside(k, p) {
      var i: nat :| i < |parts| && p == PieceAt(parts, i);
      ChunkInside(parts, p, i);
    }
    NeverLoaded(r, k, parts);
    StoringConfined(r, t, Some(k), PiecesOf(parts));
    StoringAuthentic(r, t, Some(k), PiecesOf(parts), k, parts);
  }

  lemma InPlacePreserved(s: State, a: Action, k: Key, parts: seq<seq<Byte>>)
    requires Inv(s) && ChunksOwned(s) && WritersConfined(s) && IsPartition(k, parts) && Enabled(s, a)
    requires KeyInPlace(s, k, parts) && WritersAuthentic(s, k, parts)
    ensures KeyInPlace(Next(s, a), k, parts)
  {
    hide Inv, ChunksOwned, WritersConfined, WritersAuthentic, InPlace, IsPartition;
    if a.Put? {
      PutInPlace(s, a.w, k, parts);
    } else if a.Publish? && s.lock.key == k {
      PublishInPlace(s, k, parts);
    }
  }

  lemma WritersStayAuthentic(s: State, a: Action, k: Key, parts: seq<seq<Byte>>)
    requires WritersAuthentic(s, k, parts) && Enabled(s, a)
    requires a.Load? && a.key == k ==> InPartition(parts, a.piece)
    ensures WritersAuthentic(Next(s, a), k, parts)
  {
    hide InPartition;
  }

  /** Whatever is stored where a chunk of k belongs is that chunk, no matter what bytes other transactions store. */
  lemma {:induction false} InPlaceHolds(run: Run<Action>, k: Key, parts: seq<seq<Byte>>)
    requires IsRun(INIT, run) && Clean(run, k, parts)
    ensures KeyInPlace(Exec(INIT, run), k, parts) && WritersAuthentic(Exec(INIT, run), k, parts)
  {
    hide Inv, ChunksOwned, WritersConfined, InPartition, IsPartition, Next, Enabled;
    if run.Begin? {
      assert KeyInPlace(INIT, k, parts);
    } else {
      InPlaceHolds(run.before, k, parts);
      InvHolds(run.before);
      OwnedHolds(run.before);
      InPlacePreserved(Exec(INIT, run.before), run.act, k, parts);
      WritersStayAuthentic(Exec(INIT, run.before), run.act, k, parts);
    }
  }

  // ---- the reader ----

  datatype Read = Done(data: seq<Byte>) | Missing | Endless

  /** The loop of getArTxData in uint64: from position start + i while it is below the end offset. */
  function ReadLoop(chunks: map<nat, seq<Byte>>, start: nat, i: nat, end: nat, fuel: nat): Read
    decreases fuel
  {
    var p := U64(i + start);
    if p >= end then Done([])
    else if p !in chunks then Missing
    else if fuel == 0 then Endless
    else
      match ReadLoop(chunks, start, i + |chunks[p]|, end, fuel - 1)
      case Done(d) => Done(chunks[p] + d)
      case other => other
  }

  /** How many chunks the reader asks for: a last chunk of one byte starts at the end offset and is not read. */
  function Needed(parts: seq<seq<Byte>>): nat {
    if parts != [] && |parts[|parts| - 1]| == 1 then |parts| - 1 else |parts|
  }

  predicate Present(chunks: map<nat, seq<Byte>>, start: nat, parts: seq<seq<Byte>>, i: nat)
    requires i < |parts|
  {
    start + Pre(parts, i) in chunks
  }

  ghost predicate AllPresent(chunks: map<nat, seq<Byte>>, start: nat, parts: seq<seq<Byte>>, n: nat)
    requires n <= |parts|
  {
    forall m {:trigger Present(chunks, start, parts, m)} :: 0 <= m < n ==> Present(chunks, start, parts, m)
  }

  /** Where chunk i of a transaction starting at `start` is stored at all, it is stored faithfully. */
  ghost predicate Faithful(chunks: map<nat, seq<Byte>>, start: nat, parts: seq<seq<Byte>>) {
    && NoneEmpty(parts)
    && (forall i {:trigger Present(chunks, start, parts, i)} ::
          0 <= i < |parts| && Present(chunks, start, parts, i) ==> chunks[start + Pre(parts, i)] == parts[i])
  }

  /** What a reader standing before chunk j should answer. */
  ghost function Expected(chunks: map<nat, seq<Byte>>, start: nat, parts: seq<seq<Byte>>, j: nat): Read
    requires j <= |parts|
  {
    if exists m {:trigger Present(chunks, start, parts, m)} ::
        j <= m < Needed(parts) && !Present(chunks, start, parts, m) then Missing
    else Done(if j <= Needed(parts) then Flatten(parts[j..Needed(parts)]) else [])
  }

  lemma ExpectedStep(chunks: map<nat, seq<Byte>>, start: nat, parts: seq<seq<Byte>>, j: nat)
    requires j < Needed(parts)
    ensures var rest := Expected(chunks, start, parts, j + 1);
            Expected(chunks, start, parts, j) ==
            if !Present(chunks, start, parts, j) then Missing
            else if rest.Done? then Done(parts[j] + rest.data) else rest
  {
    assert parts[j..Needed(parts)][1..] == parts[j + 1..Needed(parts)];
    if Present(chunks, start, parts, j) && Expected(chunks, start, parts, j).Missing? {
      var m :| j <= m < Needed(parts) && !Present(chunks, start, parts, m);
      assert j + 1 <= m;
    }
  }

  lemma NeededBoundary(parts: seq<seq<Byte>>, j: nat)
    requires NoneEmpty(parts)
    requires parts != [] && j <= |parts|
    ensures Pre(parts, j) + 1 >= Pre(parts, |parts|) <==> j >= Needed(parts)
    ensures Pre(parts, j) <= Pre(parts, |parts|)
  {
    PreMono(parts, j, |parts|);
    if j < |parts| {
      PreMono(parts, j + 1, |parts|);
    }
  }

  lemma ExpectedEnd(chunks: map<nat, seq<Byte>>, start: nat, parts: seq<seq<Byte>>, j: nat)
    requires Needed(parts) <= j <= |parts|
    ensures Expected(chunks, start, parts, j) == Done([])
  {
    assert parts[j..j] == [];
  }

  /** One turn of the loop at a position that does not wrap. */
  lemma ReadUnwrapped(chunks: map<nat, seq<Byte>>, start: nat, i: nat, end: nat, fuel: nat)
    requires start + i < UINT64
    ensures ReadLoop(chunks, start, i, end, fuel) ==
            if start + i >= end then Done([])
            else if start + i !in chunks then Missing
            else if fuel == 0 then Endless
            else
              var rest := ReadLoop(chunks, start, i + |chunks[start + i]|, end, fuel - 1);
              if rest.Done? then Done(chunks[start + i] + rest.data) else rest
  {
    InRange(start + i);
  }

  lemma {:induction false} ReadFromChunk(
    chunks: map<nat, seq<Byte>>, start: nat, parts: seq<seq<Byte>>, j: nat, fuel: nat)
    requires parts != [] && Faithful(chunks, start, parts) && start + Pre(parts, |parts|) < UINT64
    requires j <= |parts| && fuel + j >= |parts|
    ensures ReadLoop(chunks, start, Pre(parts, j), start + Pre(parts, |parts|) - 1, fuel)
         == Expected(chunks, start, parts, j)
    decreases |parts| - j
  {
    hide ReadLoop, Expected, Needed;
    NeededBoundary(parts, j);
    ReadUnwrapped(chunks, start, Pre(parts, j), start + Pre(parts, |parts|) - 1, fuel);
    if j >= Needed(parts) {
      ExpectedEnd(chunks, start, parts, j);
    } else {
      ExpectedStep(chunks, start, parts, j);
      if Present(chunks, start, parts, j) {
        ReadFromChunk(chunks, start, parts, j + 1, fuel - 1);
      }
    }
  }

  lemma ReadFromStart(chunks: map<nat, seq<Byte>>, start: nat, parts: seq<seq<Byte>>, fuel: nat)
    requires parts != [] && Faithful(chunks, start, parts) && start + Pre(parts, |parts|) < UINT64 && fuel >= |parts|
    ensures ReadLoop(chunks, start, 0, start + Pre(parts, |parts|) - 1, fuel) ==
            if AllPresent(chunks, start, parts, Needed(parts)) then Done(Flatten(parts[..Needed(parts)])) else Missing
  {
    ReadFromChunk(chunks, start, parts, 0, fuel);
    assert parts[0..Needed(parts)] == parts[..Needed(parts)];
  }

  lemma InPlaceFaithful(chunks: map<nat, seq<Byte>>, start: nat, parts: seq<seq<Byte>>)
    requires InPlace(chunks, start, parts)
    requires NoneEmpty(parts)
    ensures Faithful(chunks, start, parts)
  {}

  /** The reader's view of key k: its start, and chunks that are faithful to it. */
  lemma ReaderView(run: Run<Action>, k: Key, parts: seq<seq<Byte>>)
    requires IsRun(INIT, run) && Clean(run, k, parts) && k in Exec(INIT, run).ends
    ensures var s := Exec(INIT, run);
            && s.ends[k] + 1 < UINT64 && k.size <= s.ends[k] && Start(k, s.ends[k]) == s.ends[k] - k.size + 1
            && Faithful(s.chunks, Start(k, s.ends[k]), parts)
  {
    var s := Exec(INIT, run);
    InvHolds(run);
    InRange(s.ends[k] - k.size + 1);
    InPlaceHolds(run, k, parts);
    InPlaceFaithful(s.chunks, s.ends[k] - k.size + 1, parts);
  }

  /** getArTxData on an allocated transaction of positive size. */
  function GetData(s: State, k: Key, fuel: nat): Read
    requires k in s.ends
  {
    ReadLoop(s.chunks, Start(k, s.ends[k]), 0, s.ends[k], fuel)
  }

  /** The first n chunks of k are stored. */
  ghost predicate Complete(s: State, k: Key, parts: seq<seq<Byte>>, n: nat)
    requires k in s.ends && n <= |parts|
  {
    AllPresent(s.chunks, Start(k, s.ends[k]), parts, n)
  }

  /**
   Reads are all or nothing: on an allocated transaction the reader ends, and it returns exactly the transaction's
   bytes up to the last needed chunk if those chunks are stored, and an error otherwise.
   */
  lemma ReadExact(run: Run<Action>, k: Key, parts: seq<seq<Byte>>, fuel: nat)
    requires IsRun(INIT, run) && Clean(run, k, parts)
    requires k in Exec(INIT, run).ends && k.size > 0 && fuel >= |parts|
    ensures var s := Exec(INIT, run);
            GetData(s, k, fuel) ==
            if Complete(s, k, parts, Needed(parts)) then Done(Flatten(parts[..Needed(parts)])) else Missing
  {
    ReaderView(run, k, parts);
    var s := Exec(INIT, run);
    ReadFromStart(s.chunks, Start(k, s.ends[k]), parts, fuel);
  }

  lemma FaithfulTo(run: Run<Action>, k: Key, parts: seq<seq<Byte>>, i: nat)
    requires IsRun(INIT, run) && Clean(run, k, parts) && k in Exec(INIT, run).ends && i < |parts|
    requires Present(Exec(INIT, run).chunks, Start(k, Exec(INIT, run).ends[k]), parts, i)
    ensures Exec(INIT, run).chunks[Start(k, Exec(INIT, run).ends[k]) + Pre(parts, i)] == parts[i]
  {
    ReaderView(run, k, parts);
  }

  lemma PutPresent(s: State, w: Writer, parts: seq<seq<Byte>>, i: nat)
    requires Inv(s) && Enabled(s, Put(w)) && IsPartition(w.key, parts) && IsChunk(parts, w.piece, i)
    ensures w.key in s.ends && Present(Next(s, Put(w)).chunks, Start(w.key, s.ends[w.key]), parts, i)
  {
    ChunkAddress(w.key, w.end, parts, w.piece, i);
  }

  /** A chunk put at any point of a run is present from then on, and in a clean run it is never overwritten. */
  lemma PutStays(before: Run<Action>, w: Writer, run: Run<Action>, parts: seq<seq<Byte>>, i: nat)
    requires IsRun(INIT, run) && Extends(Then(before, Put(w)), run)
    requires IsPartition(w.key, parts) && IsChunk(parts, w.piece, i)
    ensures var s := Exec(INIT, run);
            && w.key in s.ends && Present(s.chunks, Start(w.key, s.ends[w.key]), parts, i)
            && (Clean(run, w.key, parts) ==> s.chunks[Start(w.key, s.ends[w.key]) + Pre(parts, i)] == w.piece.data)
  {
    hide Clean, Inv, Faithful;
    AssignedOnce(Then(before, Put(w)), run);
    InvHolds(before);
    PutPresent(Exec(INIT, before), w, parts, i);
    if Clean(run, w.key, parts) {
      FaithfulTo(run, w.key, parts, i);
    }
  }

  // ---- reading beside other writers ----

  /** Every chunk that begins from lo to hi has bytes and ends by hi. */
  ghost predicate Bounded(chunks: map<nat, seq<Byte>>, lo: nat, hi: nat) {
    forall a | lo <= a <= hi && a in chunks :: 1 <= |chunks[a]| && a + |chunks[a]| <= hi + 1
  }

  /** In a confined state the chunks that a reader of k meets end in the interval of k. */
  lemma MeetsOwn(s: State, k: Key)
    requires Inv(s) && ChunksOwned(s) && k in s.ends
    ensures s.ends[k] + 1 < UINT64 && k.size <= s.ends[k] && Start(k, s.ends[k]) == s.ends[k] - k.size + 1
    ensures Bounded(s.chunks, Start(k, s.ends[k]), s.ends[k])
  {
    var start := s.ends[k] - k.size + 1;
    InRange(start);
    forall a | start <= a <= s.ends[k] && a in s.chunks ensures Within(s, a, k) {
      var l :| Within(s, a, l);
    }
  }

  /** The loop ends after at most as many loads as there are bytes left. */
  lemma {:induction false} ReadEndsFrom(chunks: map<nat, seq<Byte>>, start: nat, i: nat, end: nat, fuel: nat)
    requires Bounded(chunks, start, end) && end + 1 < UINT64 && start + i <= end + 1 <= start + i + fuel
    ensures !ReadLoop(chunks, start, i, end, fuel).Endless?
    decreases fuel
  {
    var p := start + i;
    InRange(p);
    if p < end && p in chunks && fuel > 0 {
      ReadEndsFrom(chunks, start, i + |chunks[p]|, end, fuel - 1);
    }
  }

  /** In every confined run every read ends, whatever bytes have been stored. */
  lemma ReadEnds(run: Run<Action>, k: Key, fuel: nat)
    requires IsRun(INIT, run) && Confined(run) && k in Exec(INIT, run).ends && fuel >= k.size
    ensures !GetData(Exec(INIT, run), k, fuel).Endless?
  {
    InvHolds(run);
    OwnedHolds(run);
    var s := Exec(INIT, run);
    MeetsOwn(s, k);
    ReadEndsFrom(s.chunks, Start(k, s.ends[k]), 0, s.ends[k], fuel);
  }

  /** The two maps agree from lo to hi. */
  ghost predicate Agree(chunks: map<nat, seq<Byte>>, other: map<nat, seq<Byte>>, lo: nat, hi: nat) {
    forall a | lo <= a <= hi :: (a in chunks <==> a in other) && (a in chunks ==> chunks[a] == other[a])
  }

  lemma NextAgrees(s: State, a: Action, k: Key)
    requires Inv(s) && WritersConfined(s) && Enabled(s, a) && k in s.ends && (a.Put? ==> a.w.key != k)
    ensures k.size <= s.ends[k] && Agree(s.chunks, Next(s, a).chunks, s.ends[k] - k.size + 1, s.ends[k])
  {
    if a.Put? {
      InsideExact(a.w.key, a.w.end, a.w.piece);
    }
  }

  lemma {:induction false} ReadUnchangedFrom(
    chunks: map<nat, seq<Byte>>, other: map<nat, seq<Byte>>, start: nat, i: nat, end: nat, fuel: nat)
    requires Bounded(chunks, start, end) && Agree(chunks, other, start, end)
    requires start + i <= end + 1 < UINT64
    ensures ReadLoop(other, start, i, end, fuel) == ReadLoop(chunks, start, i, end, fuel)
    decreases fuel
  {
    var p := start + i;
    InRange(p);
    if p < end && p in chunks && fuel > 0 {
      ReadUnchangedFrom(chunks, other, start, i + |chunks[p]|, end, fuel - 1);
    }
  }

  /** Only a put for k itself changes what is read of k. */
  lemma OthersDoNotDisturb(run: Run<Action>, a: Action, k: Key, fuel: nat)
    requires IsRun(INIT, Then(run, a)) && Confined(Then(run, a)) && k in Exec(INIT, run).ends
    requires a.Put? ==> a.w.key != k
    ensures k in Exec(INIT, Then(run, a)).ends
    ensures GetData(Exec(INIT, Then(run, a)), k, fuel) == GetData(Exec(INIT, run), k, fuel)
  {
    InvHolds(run);
    OwnedHolds(run);
    var s := Exec(INIT, run);
    StepKeeps(s, a);
    MeetsOwn(s, k);
    NextAgrees(s, a, k);
    ReadUnchangedFrom(s.chunks, Next(s, a).chunks, Start(k, s.ends[k]), 0, s.ends[k], fuel);
  }

  // ---- what an outside piece does ----

  /** Two transactions of two bytes: the bytes of the first, and a piece put for the second that is too long for it. */
  const FIRST: Key := Key("a", "2", 2)
  const SECOND: Key := Key("b", "2", 2)
  const OWN: Piece := Piece(1, [1, 2])
  const OUTSIDE: Piece := Piece(1, [9, 9, 9, 9])

  const ALLOCATED: State := State(4, map[FIRST := 2, SECOND := 4], map[], {}, Free, {})

  const LOADED: State := ALLOCATED.(writers := {Writer(FIRST, 2, OWN), Writer(SECOND, 4, OUTSIDE)})

  const RESERVED: Run<Action> := Then(Then(Then(Then(Begin, Reserve(FIRST)), Publish), Reserve(SECOND)), Publish)

  /** The first transaction's own chunk is stored, and the outside piece is about to be. */
  const STORED: Run<Action> :=
    Then(Then(Then(RESERVED, Load(FIRST, OWN)), Load(SECOND, OUTSIDE)), Put(Writer(FIRST, 2, OWN)))

  /** A run goes on by one action, from the state s it has led to. */
  lemma GoOn(run: Run<Action>, s: State, a: Action, t: State)
    requires IsRun(INIT, run) && Exec(INIT, run) == s && Enabled(s, a) && HasRoom(s, a) && Next(s, a) == t
    ensures IsRun(INIT, Then(run, a)) && Exec(INIT, Then(run, a)) == t
  {}

  lemma BothAllocated()
    ensures IsRun(INIT, RESERVED) && Exec(INIT, RESERVED) == ALLOCATED
  {
    var r := Then(Then(Begin, Reserve(FIRST)), Publish);
    var s := State(2, map[FIRST := 2], map[], {}, Free, {});
    GoOn(Begin, INIT, Reserve(FIRST), State(2, map[], map[], {}, Counted(0, 2, FIRST), {}));
    GoOn(Then(Begin, Reserve(FIRST)), State(2, map[], map[], {}, Counted(0, 2, FIRST), {}), Publish, s);
    GoOn(r, s, Reserve(SECOND), s.(all := 4, lock := Counted(2, 4, SECOND)));
    GoOn(Then(r, Reserve(SECOND)), s.(all := 4, lock := Counted(2, 4, SECOND)), Publish, ALLOCATED);
  }

  lemma OwnStored()
    ensures IsRun(INIT, STORED) && Exec(INIT, STORED) == LOADED.(chunks := map[1 := [1, 2]])
  {
    hide IsRun, Exec;
    BothAllocated();
    var s := ALLOCATED.(writers := {Writer(FIRST, 2, OWN)});
    GoOn(RESERVED, ALLOCATED, Load(FIRST, OWN), s);
    GoOn(Then(RESERVED, Load(FIRST, OWN)), s, Load(SECOND, OUTSIDE), LOADED);
    GoOn(Then(Then(RESERVED, Load(FIRST, OWN)), Load(SECOND, OUTSIDE)), LOADED, Put(Writer(FIRST, 2, OWN)),
         LOADED.(chunks := map[1 := [1, 2]]));
  }

  /** Without confinement the reader is given other bytes: one put for the second key replaces those of the first. */
  lemma OutsidePieceSpoils()
    ensures var run := Then(STORED, Put(Writer(SECOND, 4, OUTSIDE)));
            && IsRun(INIT, run) && !Inside(SECOND, OUTSIDE)
            && FIRST in Exec(INIT, STORED).ends && GetData(Exec(INIT, STORED), FIRST, 1) == Done([1, 2])
            && FIRST in Exec(INIT, run).ends && GetData(Exec(INIT, run), FIRST, 1) == Done([9, 9, 9, 9])
  {
    hide IsRun, Exec;
    OwnStored();
    var s := LOADED.(chunks := map[1 := [1, 2]]);
    var t := LOADED.(chunks := map[1 := [9, 9, 9, 9]]);
    assert Target(Writer(SECOND, 4, OUTSIDE)) == 1;
    GoOn(STORED, s, Put(Writer(SECOND, 4, OUTSIDE)), t);
    assert ReadLoop(s.chunks, 1, 2, 2, 0) == Done([]) && ReadLoop(t.chunks, 1, 4, 2, 0) == Done([]);
    assert [1, 2] + [] == [1, 2] && [9, 9, 9, 9] + [] == [9, 9, 9, 9];
  }

  lemma {:induction false} FlattenLength(parts: seq<seq<Byte>>)
    ensures |Flatten(parts)| == Pre(parts, |parts|)
  {
    if parts != [] {
      FlattenLength(parts[1..]);
      PreTail(parts, |parts|);
    }
  }

  lemma {:induction false} PreTail(parts: seq<seq<Byte>>, i: nat)
    requires 1 <= i <= |parts|
    ensures Pre(parts, i) == |parts[0]| + Pre(parts[1..], i - 1)
  {
    if i > 1 {
      PreTail(parts, i - 1);
    }
  }

  lemma {:induction false} PrePrefix(parts: seq<seq<Byte>>, n: nat, i: nat)
    requires i <= n <= |parts|
    ensures Pre(parts[..n], i) == Pre(parts, i)
  {
    if i > 0 {
      PrePrefix(parts, n, i - 1);
    }
  }

  /** The round trip: with every chunk stored, all data comes back exactly when the last chunk has two bytes or more. */
  lemma RoundTripExact(run: Run<Action>, k: Key, parts: seq<seq<Byte>>, fuel: nat)
    requires IsRun(INIT, run) && Clean(run, k, parts)
    requires k in Exec(INIT, run).ends && k.size > 0 && fuel >= |parts|
    requires Complete(Exec(INIT, run), k, parts, |parts|)
    ensures parts != []
    ensures GetData(Exec(INIT, run), k, fuel) == Done(Flatten(parts)) <==> |parts[|parts| - 1]| >= 2
  {
    ReadExact(run, k, parts, fuel);
    FlattenLength(parts);
    FlattenLength(parts[..Needed(parts)]);
    PrePrefix(parts, Needed(parts), Needed(parts));
    assert parts[..|parts|] == parts;
  }

  // ---- the counter's limit ----

  /** At a position that wraps the reader either stops early or runs on into address zero. */
  lemma {:induction false} WrappedReadFails(
    chunks: map<nat, seq<Byte>>, start: nat, parts: seq<seq<Byte>>, j: nat, fuel: nat)
    requires parts != [] && Faithful(chunks, start, parts) && |parts[|parts| - 1]| >= 2
    requires start + Pre(parts, |parts|) == UINT64 && 0 !in chunks && j <= |parts|
    ensures !ReadLoop(chunks, start, Pre(parts, j), UINT64 - 1, fuel).Done?
    decreases |parts| - j
  {
    NeededBoundary(parts, j);
    if j < |parts| {
      InRange(start + Pre(parts, j));
      if Present(chunks, start, parts, j) && fuel > 0 {
        WrappedReadFails(chunks, start, parts, j + 1, fuel - 1);
      }
    }
  }

  /** Chunk i is where storeChunk puts it for an interval reserved when the counter stood at `all`. */
  predicate PutAt(chunks: map<nat, seq<Byte>>, all: nat, parts: seq<seq<Byte>>, i: nat)
    requires i < |parts|
  {
    var p := U64(all + 1 + Pre(parts, i));
    p in chunks && chunks[p] == parts[i]
  }

  lemma PutAtPresent(chunks: map<nat, seq<Byte>>, all: nat, parts: seq<seq<Byte>>)
    requires NoneEmpty(parts)
    requires forall i :: 0 <= i < |parts| ==> PutAt(chunks, all, parts, i)
    requires all + 1 + Pre(parts, |parts|) <= UINT64
    ensures Faithful(chunks, all + 1, parts)
    ensures forall i {:trigger Present(chunks, all + 1, parts, i)} ::
              0 <= i < |parts| ==> Present(chunks, all + 1, parts, i)
  {
    forall i {:trigger Present(chunks, all + 1, parts, i)} | 0 <= i < |parts|
      ensures Present(chunks, all + 1, parts, i) && chunks[all + 1 + Pre(parts, i)] == parts[i]
    {
      PreMono(parts, i, |parts|);
      InRange(all + 1 + Pre(parts, i));
      assert PutAt(chunks, all, parts, i);
    }
  }

  /**
   The room that runs ask for is exactly what is needed: a key reserved and published from a reachable state, with
   all its chunks put at the addresses storeChunk computes, reads back if and only if the reservation had room.
   */
  lemma RoomExact(s: State, k: Key, parts: seq<seq<Byte>>, chunks: map<nat, seq<Byte>>, fuel: nat)
    requires Inv(s) && Enabled(s, Reserve(k)) && IsPartition(k, parts)
    requires k.size > 0 && fuel >= |parts| && parts != [] && |parts[|parts| - 1]| >= 2
    requires 0 !in chunks && forall i :: 0 <= i < |parts| ==> PutAt(chunks, s.all, parts, i)
    ensures var end := U64(s.all + k.size);
            ReadLoop(chunks, Start(k, end), 0, end, fuel) == Done(Flatten(parts)) <==> HasRoom(s, Reserve(k))
  {
    FlattenLength(parts);
    StartAfterReserve(k, s.all);
    if s.all + k.size < UINT64 {
      PutAtPresent(chunks, s.all, parts);
      if s.all + k.size + 1 < UINT64 {
        ReadFromStart(chunks, s.all + 1, parts, fuel);
        assert parts[..Needed(parts)] == parts;
      } else {
        WrappedReadFails(chunks, s.all + 1, parts, 0, fuel);
      }
    }
  }

  lemma StartAfterReserve(k: Key, all: nat)
    requires 0 < k.size < UINT64 && all + 1 < UINT64
    ensures var end := U64(all + k.size);
            && (end == all + k.size || (all + k.size >= UINT64 && end < all + 1))
            && (all + k.size < UINT64 ==> end == all + k.size)
            && Start(k, end) == all + 1 && U64(all + 1) == all + 1
  {
    InRange(all + 1);
    if all + k.size >= UINT64 {
      assert U64(all + k.size) == all + k.size - UINT64;
    }
  }
}
