/** src/cache/BCache.bsv with the burst engines of src/cache/BCacheUtils.bsv and the
    memory behind them: a blocking write-back cache, one method per rule. */
module BCache {
  import opened Wrappers
  import opened Words

  datatype Place = Place(tag: nat, index: nat, offset: nat)

  datatype Slot = Slot(way: nat, index: nat, offset: nat)

  datatype Line = Line(tag: nat, index: nat)

  type Flat = map<Place, Word>

  type Ram = map<Slot, Word>

  function Fetch(m: Flat, p: Place): Word {
    if p in m then m[p] else ZERO
  }

  function Peek(r: Ram, s: Slot): Word {
    if s in r then r[s] else ZERO
  }

  datatype Op = Load | Store | Invalidate

  datatype Request = Request(tag: nat, op: Op, data: Word, mask: Strobes)

  /** The tag, valid and dirty RAMs: for each index, a vector over the ways. */
  datatype Tags = Tags(tag: seq<seq<nat>>, valid: seq<seq<bool>>, dirty: seq<seq<bool>>)

  ghost predicate Shape(t: Tags, sets: nat, ways: nat) {
    && |t.tag| == |t.valid| == |t.dirty| == sets
    && forall i :: 0 <= i < sets ==> |t.tag[i]| == |t.valid[i]| == |t.dirty[i]| == ways
  }

  /** Way `w` of set `i` holds the line. */
  predicate Holds(t: Tags, i: nat, w: nat, tag: nat)
    requires i < |t.tag| == |t.valid| && w < |t.tag[i]| == |t.valid[i]|
  {
    t.valid[i][w] && t.tag[i][w] == tag
  }

  ghost predicate Cached(t: Tags, line: Line, sets: nat, ways: nat)
    requires Shape(t, sets, ways)
  {
    exists w :: 0 <= w < ways && line.index < sets && Holds(t, line.index, w, line.tag)
  }

  function SetWay(t: Tags, i: nat, w: nat, tag: nat, valid: bool, dirty: bool): Tags
    requires i < |t.tag| == |t.valid| == |t.dirty| && w < |t.tag[i]| == |t.valid[i]| == |t.dirty[i]|
  {
    var row: seq<nat> := t.tag[i][w := tag];
    Tags(t.tag[i := row], t.valid[i := t.valid[i][w := valid]], t.dirty[i := t.dirty[i][w := dirty]])
  }

  /** No set holds a line twice. */
  ghost predicate Unique(t: Tags, sets: nat, ways: nat)
    requires Shape(t, sets, ways)
  {
    forall i, v, w :: 0 <= i < sets && 0 <= v < ways && 0 <= w < ways ==>
      t.valid[i][v] && t.valid[i][w] && t.tag[i][v] == t.tag[i][w] ==> v == w
  }

  /** A way holds its line: the data RAM agrees with the flat memory, and so does
      memory when the line is clean. */
  ghost predicate WayAgrees(t: Tags, ram: Ram, mem: Flat, flat: Flat, words: nat, i: nat, w: nat)
    requires i < |t.tag| == |t.valid| == |t.dirty| && w < |t.tag[i]| == |t.valid[i]| == |t.dirty[i]|
  {
    t.valid[i][w] ==>
      forall o :: 0 <= o < words ==>
        && Peek(ram, Slot(w, i, o)) == Fetch(flat, Place(t.tag[i][w], i, o))
        && (!t.dirty[i][w] ==> Fetch(mem, Place(t.tag[i][w], i, o)) == Fetch(flat, Place(t.tag[i][w], i, o)))
  }

  /** Memory holds the flat contents of a line. */
  ghost predicate InMemory(mem: Flat, flat: Flat, words: nat, line: Line) {
    forall o :: 0 <= o < words ==>
          Fetch(mem, Place(line.tag, line.index, o)) == Fetch(flat, Place(line.tag, line.index, o))
  }

  /** Every way but the one being refilled holds its line; every uncached line but the
      one being written back is in memory. */
  ghost predicate Coherent(t: Tags, ram: Ram, mem: Flat, flat: Flat, sets: nat, ways: nat, words: nat,
                           filling: Option<(nat, nat)>, leaving: Option<Line>)
    requires Shape(t, sets, ways)
  {
    && Unique(t, sets, ways)
    && (forall i, w :: 0 <= i < sets && 0 <= w < ways && Some((i, w)) != filling ==>
          WayAgrees(t, ram, mem, flat, words, i, w))
    && (forall line: Line :: line.index < sets && Some(line) != leaving && !Cached(t, line, sets, ways) ==>
          InMemory(mem, flat, words, line))
  }

  /** The word of the flat memory once the pending operation is performed on `word`. */
  function After(op: Op, here: bool, word: Word, data: Word, mask: Strobes): Word {
    if op == Store && here then Merge(word, data, mask) else word
  }

  /** The line being fetched: memory holds it as it was before the pending operation. */
  ghost predicate Pending(mem: Flat, flat: Flat, words: nat, line: Line, offset: nat, r: Request) {
    forall o :: 0 <= o < words ==>
      Fetch(flat, Place(line.tag, line.index, o))
            == After(r.op, o == offset, Fetch(mem, Place(line.tag, line.index, o)), r.data, r.mask)
  }

  /** A burst read of a line: `got` words are in the data RAM. */
  datatype Refill = Refill(line: Line, way: nat, got: nat)

  /** A burst write: `sent` words have left the data RAM, `done` are in memory. */
  datatype Writeback = Writeback(line: Line, way: nat, sent: nat, done: nat, acked: bool)

  ghost predicate Refilling(ram: Ram, mem: Flat, words: nat, f: Refill, queue: seq<Word>) {
    && f.got + |queue| <= words
    && (forall o :: 0 <= o < f.got ==>
          Peek(ram, Slot(f.way, f.line.index, o)) == Fetch(mem, Place(f.line.tag, f.line.index, o)))
    && (forall k :: 0 <= k < |queue| ==> queue[k] == Fetch(mem, Place(f.line.tag, f.line.index, f.got + k)))
  }

  ghost predicate Leaving(ram: Ram, mem: Flat, flat: Flat, words: nat, b: Writeback, queue: seq<Word>) {
    && b.done + |queue| == b.sent <= words
    && (b.acked ==> b.done == words)
    && (forall o :: 0 <= o < words ==>
          Peek(ram, Slot(b.way, b.line.index, o)) == Fetch(flat, Place(b.line.tag, b.line.index, o)))
    && (forall o :: 0 <= o < b.done ==>
          Fetch(mem, Place(b.line.tag, b.line.index, o)) == Fetch(flat, Place(b.line.tag, b.line.index, o)))
    && (forall k :: 0 <= k < |queue| ==> queue[k] == Fetch(flat, Place(b.line.tag, b.line.index, b.done + k)))
  }

  // ----- what each change of the RAMs keeps

  lemma {:induction false} SetWayShape(t: Tags, sets: nat, ways: nat, i: nat, w: nat, tag: nat, valid: bool,
        dirty: bool)
    requires Shape(t, sets, ways) && i < sets && w < ways
    ensures Shape(SetWay(t, i, w, tag, valid, dirty), sets, ways)
    ensures var u := SetWay(t, i, w, tag, valid, dirty);
            forall j, v :: 0 <= j < sets && 0 <= v < ways ==>
              && u.tag[j][v] == (if (j, v) == (i, w) then tag else t.tag[j][v])
              && u.valid[j][v] == (if (j, v) == (i, w) then valid else t.valid[j][v])
              && u.dirty[j][v] == (if (j, v) == (i, w) then dirty else t.dirty[j][v])
  {
  }

  lemma {:induction false} SetWayHere(t: Tags, sets: nat, ways: nat, i: nat, w: nat, tag: nat, valid: bool, dirty: bool)
    requires Shape(t, sets, ways) && i < sets && w < ways
    ensures i < |t.tag| == |t.valid| == |t.dirty| && w < |t.tag[i]| == |t.valid[i]| == |t.dirty[i]|
    ensures var u := SetWay(t, i, w, tag, valid, dirty);
            && i < |u.tag| == |u.valid| == |u.dirty| && w < |u.tag[i]| == |u.valid[i]| == |u.dirty[i]|
            && u.tag[i][w] == tag && u.valid[i][w] == valid && u.dirty[i][w] == dirty
  {
  }

  /** A store hits: the way becomes dirty and its word is merged in place. */
  lemma {:induction false} HitStore(t: Tags, ram: Ram, mem: Flat, flat: Flat, sets: nat, ways: nat, words: nat,
                                    i: nat, w: nat, o: nat, data: Word, mask: Strobes)
    requires Shape(t, sets, ways) && i < sets && w < ways && o < words && t.valid[i][w]
    requires Coherent(t, ram, mem, flat, sets, ways, words, None, None)
    ensures var u := SetWay(t, i, w, t.tag[i][w], true, true);
            var p, s := Place(t.tag[i][w], i, o), Slot(w, i, o);
            && Shape(u, sets, ways)
            && Coherent(u, ram[s := Merge(Peek(ram, s), data, mask)], mem,
                  flat[p := Merge(Fetch(flat, p), data, mask)], sets, ways, words, None, None)
  {
    var tag := t.tag[i][w];
    SetWayShape(t, sets, ways, i, w, tag, true, true);
    var u := SetWay(t, i, w, tag, true, true);
    var p, s := Place(tag, i, o), Slot(w, i, o);
    var ram', flat' := ram[s := Merge(Peek(ram, s), data, mask)], flat[p := Merge(Fetch(flat, p), data, mask)];
    forall j, v | 0 <= j < sets && 0 <= v < ways
      ensures WayAgrees(u, ram', mem, flat', words, j, v)
    {
      assert WayAgrees(t, ram, mem, flat, words, j, v);
      assert WayAgrees(t, ram, mem, flat, words, i, w);
    }
    forall line: Line | line.index < sets && !Cached(u, line, sets, ways)
      ensures InMemory(mem, flat', words, line)
    {
      SameCached(t, u, sets, ways, line);
      assert Holds(t, i, w, tag);
      assert InMemory(mem, flat, words, line);
    }
  }

  lemma {:induction false} SameCached(t: Tags, u: Tags, sets: nat, ways: nat, line: Line)
    requires Shape(t, sets, ways) && Shape(u, sets, ways) && line.index < sets
    requires forall v :: 0 <= v < ways ==>
          u.tag[line.index][v] == t.tag[line.index][v] && u.valid[line.index][v] == t.valid[line.index][v]
    ensures Cached(t, line, sets, ways) <==> Cached(u, line, sets, ways)
  {
    forall v | 0 <= v < ways
      ensures Holds(t, line.index, v, line.tag) <==> Holds(u, line.index, v, line.tag)
    {
    }
  }

  /** A miss takes over a way: its old line leaves if it was dirty, and the new line,
      which no way held, is cached from now on while it is being fetched. */
  lemma {:induction false} TakeOver(t: Tags, ram: Ram, mem: Flat, flat: Flat, flat': Flat, sets: nat, ways: nat,
        words: nat, i: nat, w: nat, o: nat, r: Request)
    requires Shape(t, sets, ways) && i < sets && w < ways && o < words && r.op != Invalidate
    requires Coherent(t, ram, mem, flat, sets, ways, words, None, None)
    requires !Cached(t, Line(r.tag, i), sets, ways)
    requires var p := Place(r.tag, i, o);
             flat' == if r.op == Store then flat[p := Merge(Fetch(flat, p), r.data, r.mask)] else flat
    ensures var u := SetWay(t, i, w, r.tag, true, r.op == Store);
            var evict := t.dirty[i][w] && t.valid[i][w];
            && Shape(u, sets, ways)
            && Coherent(u, ram, mem, flat', sets, ways, words, Some((i, w)),
                        if evict then Some(Line(t.tag[i][w], i)) else None)
            && Pending(mem, flat', words, Line(r.tag, i), o, r)
            && (evict ==> t.tag[i][w] != r.tag && forall k :: 0 <= k < words ==>
                  Peek(ram, Slot(w, i, k)) == Fetch(flat', Place(t.tag[i][w], i, k)))
  {
    var u := SetWay(t, i, w, r.tag, true, r.op == Store);
    SetWayShape(t, sets, ways, i, w, r.tag, true, r.op == Store);
    var old_, here := Line(t.tag[i][w], i), Line(r.tag, i);
    var evict := t.dirty[i][w] && t.valid[i][w];
    NotHeld(t, sets, ways, r.tag, i);
    assert WayAgrees(t, ram, mem, flat, words, i, w);
    assert InMemory(mem, flat, words, here);
    OtherWays(t, ram, mem, flat, flat', sets, ways, words, i, w, o, r);
    hide Merge, Fetch, WayAgrees, Cached, Shape;
    forall line: Line | line.index < sets && (evict ==> line != old_) && !Cached(u, line, sets, ways)
      ensures InMemory(mem, flat', words, line)
    {
      Elsewhere(t, ram, mem, flat, sets, ways, words, i, w, r.tag, r.op == Store, line);
      assert line != here;
    }
  }

  lemma {:induction false} NotHeld(t: Tags, sets: nat, ways: nat, tag: nat, i: nat)
    requires Shape(t, sets, ways) && i < sets && !Cached(t, Line(tag, i), sets, ways)
    ensures forall v :: 0 <= v < ways && t.valid[i][v] ==> t.tag[i][v] != tag
  {
    forall v | 0 <= v < ways && t.valid[i][v]
      ensures t.tag[i][v] != tag
    {
      assert !Holds(t, i, v, tag);
    }
  }

  /** The other ways agree with the flat memory after the operation too. */
  lemma {:induction false} OtherWays(t: Tags, ram: Ram, mem: Flat, flat: Flat, flat': Flat, sets: nat, ways: nat,
        words: nat, i: nat, w: nat, o: nat, r: Request)
    requires Shape(t, sets, ways) && i < sets && w < ways && o < words
    requires Coherent(t, ram, mem, flat, sets, ways, words, None, None)
    requires !Cached(t, Line(r.tag, i), sets, ways)
    requires var p := Place(r.tag, i, o);
             flat' == if r.op == Store then flat[p := Merge(Fetch(flat, p), r.data, r.mask)] else flat
    ensures var u := SetWay(t, i, w, r.tag, true, r.op == Store);
            && Shape(u, sets, ways)
            && forall j, v :: 0 <= j < sets && 0 <= v < ways && (j, v) != (i, w) ==>
                 WayAgrees(u, ram, mem, flat', words, j, v)
  {
    hide Merge;
    var u := SetWay(t, i, w, r.tag, true, r.op == Store);
    SetWayShape(t, sets, ways, i, w, r.tag, true, r.op == Store);
    NotHeld(t, sets, ways, r.tag, i);
    forall j, v | 0 <= j < sets && 0 <= v < ways && (j, v) != (i, w)
      ensures WayAgrees(u, ram, mem, flat', words, j, v)
    {
      assert WayAgrees(t, ram, mem, flat, words, j, v);
    }
  }

  /** A line that no way holds after a way was taken over was in memory before, unless
      it was evicted. */
  lemma {:induction false} Elsewhere(t: Tags, ram: Ram, mem: Flat, flat: Flat, sets: nat, ways: nat, words: nat,
                                     i: nat, w: nat, tag: nat, dirty: bool, line: Line)
    requires Shape(t, sets, ways) && i < sets && w < ways && line.index < sets
    requires Coherent(t, ram, mem, flat, sets, ways, words, None, None)
    requires t.dirty[i][w] && t.valid[i][w] ==> line != Line(t.tag[i][w], i)
    requires Shape(SetWay(t, i, w, tag, true, dirty), sets, ways)
    requires !Cached(SetWay(t, i, w, tag, true, dirty), line, sets, ways)
    ensures line != Line(tag, i) && InMemory(mem, flat, words, line)
  {
    var u := SetWay(t, i, w, tag, true, dirty);
    SetWayShape(t, sets, ways, i, w, tag, true, dirty);
    hide SetWay;
    assert line.index == i ==> !Holds(u, i, w, line.tag);
    assert WayAgrees(t, ram, mem, flat, words, i, w);
    if !(line == Line(t.tag[i][w], i) && t.valid[i][w]) {
      forall v | 0 <= v < ways && Holds(t, line.index, v, line.tag)
        ensures Holds(u, line.index, v, line.tag)
      {
      }
      assert !Cached(t, line, sets, ways);
    }
  }

  /** A line leaves its way, and memory still lacks it if it was dirty. */
  lemma {:induction false} Drop(t: Tags, ram: Ram, mem: Flat, flat: Flat, sets: nat, ways: nat, words: nat, i: nat,
        w: nat, dirty: bool)
    requires Shape(t, sets, ways) && i < sets && w < ways && t.valid[i][w]
    requires Coherent(t, ram, mem, flat, sets, ways, words, None, None)
    ensures var u := SetWay(t, i, w, t.tag[i][w], false, dirty);
            var line := Line(t.tag[i][w], i);
            && Shape(u, sets, ways)
            && !Cached(u, line, sets, ways)
            && Coherent(u, ram, mem, flat, sets, ways, words, None, if t.dirty[i][w] then Some(line) else None)
            && (forall k :: 0 <= k < words ==> Peek(ram, Slot(w, i, k)) == Fetch(flat, Place(t.tag[i][w], i, k)))
  {
    var u := SetWay(t, i, w, t.tag[i][w], false, dirty);
    SetWayShape(t, sets, ways, i, w, t.tag[i][w], false, dirty);
    var here := Line(t.tag[i][w], i);
    assert WayAgrees(t, ram, mem, flat, words, i, w);
    forall v | 0 <= v < ways
      ensures !Holds(u, i, v, here.tag)
    {
    }
    forall j, v | 0 <= j < sets && 0 <= v < ways
      ensures WayAgrees(u, ram, mem, flat, words, j, v)
    {
      assert WayAgrees(t, ram, mem, flat, words, j, v);
    }
    forall line: Line | line.index < sets && (t.dirty[i][w] ==> line != here) && !Cached(u, line, sets, ways)
      ensures InMemory(mem, flat, words, line)
    {
      if line != here {
        forall v | 0 <= v < ways && Holds(t, line.index, v, line.tag)
          ensures Holds(u, line.index, v, line.tag)
        {
        }
        assert !Cached(t, line, sets, ways);
      }
    }
  }

  /** The data RAM of the way being refilled, and memory's copy of the line being
      written back, are nobody else's business. */
  lemma {:induction false} RefillFrame(t: Tags, ram: Ram, mem: Flat, flat: Flat, sets: nat, ways: nat, words: nat,
                                       i: nat, w: nat, o: nat, word: Word, leaving: Option<Line>)
    requires Shape(t, sets, ways) && Coherent(t, ram, mem, flat, sets, ways, words, Some((i, w)), leaving)
    ensures Coherent(t, ram[Slot(w, i, o) := word], mem, flat, sets, ways, words, Some((i, w)), leaving)
  {
    forall j, v | 0 <= j < sets && 0 <= v < ways && (j, v) != (i, w)
      ensures WayAgrees(t, ram[Slot(w, i, o) := word], mem, flat, words, j, v)
    {
      assert WayAgrees(t, ram, mem, flat, words, j, v);
    }
  }

  lemma {:induction false} WriteFrame(t: Tags, ram: Ram, mem: Flat, flat: Flat, sets: nat, ways: nat, words: nat,
                                      line: Line, o: nat, word: Word, filling: Option<(nat, nat)>)
    requires Shape(t, sets, ways) && Coherent(t, ram, mem, flat, sets, ways, words, filling, Some(line))
    requires !Cached(t, line, sets, ways) && line.index < sets
    ensures Coherent(t, ram, mem[Place(line.tag, line.index, o) := word], flat, sets, ways, words, filling, Some(line))
  {
    var mem' := mem[Place(line.tag, line.index, o) := word];
    forall j, v | 0 <= j < sets && 0 <= v < ways && Some((j, v)) != filling
      ensures WayAgrees(t, ram, mem', flat, words, j, v)
    {
      assert WayAgrees(t, ram, mem, flat, words, j, v);
      assert j == line.index ==> !Holds(t, j, v, line.tag);
    }
    forall other: Line | other.index < sets && other != line && !Cached(t, other, sets, ways)
      ensures InMemory(mem', flat, words, other)
    {
      assert InMemory(mem, flat, words, other);
    }
  }

  /** The refill is complete and the pending operation performed in the data RAM. */
  lemma {:induction false} Filled(t: Tags, ram: Ram, mem: Flat, flat: Flat, sets: nat, ways: nat, words: nat,
                                  i: nat, w: nat, o: nat, r: Request)
    requires Shape(t, sets, ways) && i < sets && w < ways && o < words && r.op != Invalidate
    requires t.valid[i][w] && t.tag[i][w] == r.tag && t.dirty[i][w] == (r.op == Store)
    requires Coherent(t, ram, mem, flat, sets, ways, words, Some((i, w)), None)
    requires Pending(mem, flat, words, Line(r.tag, i), o, r)
    requires Refilling(ram, mem, words, Refill(Line(r.tag, i), w, words), [])
    ensures var s := Slot(w, i, o);
            var ram' := if r.op == Store then ram[s := Merge(Peek(ram, s), r.data, r.mask)] else ram;
            Coherent(t, ram', mem, flat, sets, ways, words, None, None)
                  && Peek(ram', s) == Fetch(flat, Place(r.tag, i, o))
  {
    var s := Slot(w, i, o);
    var ram' := if r.op == Store then ram[s := Merge(Peek(ram, s), r.data, r.mask)] else ram;
    forall j, v | 0 <= j < sets && 0 <= v < ways
      ensures WayAgrees(t, ram', mem, flat, words, j, v)
    {
      if (j, v) != (i, w) {
        assert WayAgrees(t, ram, mem, flat, words, j, v);
      }
    }
  }

  /** The write-back is complete: the line is in memory. */
  lemma {:induction false} Left(t: Tags, ram: Ram, mem: Flat, flat: Flat, sets: nat, ways: nat, words: nat,
        filling: Option<(nat, nat)>, b: Writeback)
    requires Shape(t, sets, ways) && Coherent(t, ram, mem, flat, sets, ways, words, filling, Some(b.line))
    requires Leaving(ram, mem, flat, words, b, []) && b.acked
    ensures Coherent(t, ram, mem, flat, sets, ways, words, filling, None)
    ensures InMemory(mem, flat, words, b.line)
  {
  }

  datatype Phase = Idle | Matching | AcqRel | Acquire | Release

  /** One word on the shared read port of the data RAM, for the write-back engine or
      for the processor. */
  datatype Answer = Answer(engine: bool, word: Word)

  /** The words owed to the processor, oldest first: what is on the read port, then
      what the miss under way will read. */
  ghost function Owed(answer: Option<Answer>, phase: Phase, r: Request, flat: Flat, index: nat,
        offset: nat): seq<Word> {
    (if answer.Some? && !answer.value.engine then [answer.value.word] else [])
    + (if (phase.AcqRel? || phase.Acquire?) && r.op == Load then [Fetch(flat, Place(r.tag, index, offset))] else [])
  }

  /** All the registers of the cache and of the bursts under way. `flat` is the memory
      the processor should see and `owed` the words its reads should return. */
  datatype State = State(
    sets: nat, ways: nat, words: nat, tags: Tags, ram: Ram, mem: Flat, phase: Phase, index: nat, offset: nat,
    request: Request, way: nat, randomWay: nat, refill: Option<Refill>, rqueue: seq<Word>, writeback: Option<Writeback>,
    wqueue: seq<Word>, answer: Option<Answer>, flat: Flat, owed: seq<Word>)

  ghost predicate Sized(s: State) {
    && 0 < s.ways && 0 < s.words && Shape(s.tags, s.sets, s.ways) && s.randomWay < s.ways
    && s.index < s.sets && s.offset < s.words && s.way < s.ways
  }

  /** What holds while nothing is under way. */
  ghost predicate Quiet(s: State)
    requires Sized(s)
  {
    && s.refill.None? && s.rqueue == [] && s.writeback.None? && s.wqueue == []
    && Coherent(s.tags, s.ram, s.mem, s.flat, s.sets, s.ways, s.words, None, None)
  }

  /** The way that was taken over is marked with the new line. */
  ghost predicate Taken(s: State)
    requires Sized(s)
  {
    && s.request.op != Invalidate
    && s.tags.valid[s.index][s.way] && s.tags.tag[s.index][s.way] == s.request.tag
    && s.tags.dirty[s.index][s.way] == (s.request.op == Store)
    && Pending(s.mem, s.flat, s.words, Line(s.request.tag, s.index), s.offset, s.request)
  }

  ghost predicate PhaseInv(s: State)
    requires Sized(s)
  {
    match s.phase
    case Idle => Quiet(s)
    case Matching => Quiet(s)
    case Acquire =>
      && Taken(s) && s.writeback.None? && s.wqueue == []
      && s.refill.Some? && s.refill.value.line == Line(s.request.tag, s.index) && s.refill.value.way == s.way
      && Refilling(s.ram, s.mem, s.words, s.refill.value, s.rqueue)
      && Coherent(s.tags, s.ram, s.mem, s.flat, s.sets, s.ways, s.words, Some((s.index, s.way)), None)
    case AcqRel =>
      && Taken(s) && s.refill.None? && s.rqueue == []
      && s.writeback.Some? && s.writeback.value.way == s.way
      && s.writeback.value.line.index == s.index && s.writeback.value.line.tag != s.request.tag
      && !Cached(s.tags, s.writeback.value.line, s.sets, s.ways)
      && Leaving(s.ram, s.mem, s.flat, s.words, s.writeback.value, s.wqueue)
      && Coherent(s.tags, s.ram, s.mem, s.flat, s.sets, s.ways, s.words, Some((s.index, s.way)),
            Some(s.writeback.value.line))
    case Release =>
      && s.refill.None? && s.rqueue == [] && s.request.op == Invalidate
      && s.writeback.Some? && s.writeback.value.line == Line(s.request.tag, s.index) && s.writeback.value.way == s.way
      && !Cached(s.tags, s.writeback.value.line, s.sets, s.ways)
      && Leaving(s.ram, s.mem, s.flat, s.words, s.writeback.value, s.wqueue)
      && Coherent(s.tags, s.ram, s.mem, s.flat, s.sets, s.ways, s.words, None, Some(s.writeback.value.line))
  }

  ghost predicate Inv(s: State) {
    && Sized(s) && PhaseInv(s)
    && s.owed == Owed(s.answer, s.phase, s.request, s.flat, s.index, s.offset)
    && (s.answer.Some? && s.answer.value.engine ==>
          && s.writeback.Some? && s.writeback.value.sent < s.words
          && s.answer.value.word
                == Peek(s.ram, Slot(s.writeback.value.way, s.writeback.value.line.index, s.writeback.value.sent)))
  }

  // ----- the rules

  /** The pending request performed on the flat memory. */
  function FlatAfter(s: State): Flat {
    var p := Here(s);
    if s.request.op == Store then s.flat[p := Merge(Fetch(s.flat, p), s.request.data, s.request.mask)] else s.flat
  }

  /** The words owed once a request is matched. */
  function Owes(s: State): seq<Word> {
    s.owed + if s.request.op == Load then [Fetch(s.flat, Here(s))] else []
  }

  /** The word the request names. */
  function Here(s: State): Place {
    Place(s.request.tag, s.index, s.offset)
  }

  /** The last way below `n` that holds the line, or else `other`. */
  function LastWay(t: Tags, i: nat, tag: nat, n: nat, other: nat): (w: nat)
    requires i < |t.tag| == |t.valid| && n <= |t.tag[i]| == |t.valid[i]|
    ensures w < n || w == other
    ensures w == other || Holds(t, i, w, tag)
    ensures forall v :: 0 <= v < n && Holds(t, i, v, tag) ==> w < n && v <= w && Holds(t, i, w, tag)
  {
    if n == 0 then other
    else if Holds(t, i, n - 1, tag) then n - 1
    else LastWay(t, i, tag, n - 1, other)
  }

  function WayOf(s: State): (w: nat)
    requires Sized(s)
    ensures w < s.ways
  {
    LastWay(s.tags, s.index, s.request.tag, s.ways, s.randomWay)
  }

  function StartState(s: State, i: nat, o: nat, r: Request): State {
    s.(index := i, offset := o, request := r, phase := Matching)
  }

  function HitState(s: State, w: nat): State
    requires Sized(s) && w < s.ways
  {
    var place := Slot(w, s.index, s.offset);
    var t := s.(owed := Owes(s), flat := FlatAfter(s), phase := Idle);
    if s.request.op == Load then t.(answer := Some(Answer(false, Peek(s.ram, place))))
    else t.(tags := SetWay(s.tags, s.index, w, s.tags.tag[s.index][w], true, true),
            ram := s.ram[place := Merge(Peek(s.ram, place), s.request.data, s.request.mask)])
  }

  /** A dirty line is written back first. */
  function HitInvalidateState(s: State, w: nat): State
    requires Sized(s) && w < s.ways
  {
    var tag := s.tags.tag[s.index][w];
    var t := s.(tags := SetWay(s.tags, s.index, w, tag, false, false));
    if s.tags.dirty[s.index][w]
    then t.(way := w, writeback := Some(Writeback(Line(tag, s.index), w, 0, 0, false)), phase := Release)
    else t.(phase := Idle)
  }

  predicate Evicts(s: State, w: nat)
    requires Sized(s) && w < s.ways
  {
    s.tags.dirty[s.index][w] && s.tags.valid[s.index][w]
  }

  /** A miss takes over a way; a dirty line in it is written back first, and otherwise
      the new line is fetched at once. */
  function MissState(s: State, w: nat): State
    requires Sized(s) && w < s.ways
  {
    var t := s.(owed := Owes(s), flat := FlatAfter(s), way := w,
                tags := SetWay(s.tags, s.index, w, s.request.tag, true, s.request.op == Store));
    if Evicts(s, w)
    then t.(writeback := Some(Writeback(Line(s.tags.tag[s.index][w], s.index), w, 0, 0, false)), phase := AcqRel)
    else t.(refill := Some(Refill(Line(s.request.tag, s.index), w, 0)), phase := Acquire)
  }

  function MatchState(s: State): State
    requires Sized(s)
  {
    var w := WayOf(s);
    if Holds(s.tags, s.index, w, s.request.tag) then
      if s.request.op == Invalidate then HitInvalidateState(s, w) else HitState(s, w)
    else if s.request.op == Invalidate then s.(phase := Idle)
    else MissState(s, w)
  }

  /** The memory produces the next word of the read burst. */
  function MemoryReadState(s: State): State
    requires s.refill.Some?
  {
    var f := s.refill.value;
    s.(rqueue := s.rqueue + [Fetch(s.mem, Place(f.line.tag, f.line.index, f.got + |s.rqueue|))])
  }

  function ReceiveState(s: State): State
    requires s.refill.Some? && s.rqueue != []
  {
    var f := s.refill.value;
    s.(ram := s.ram[Slot(f.way, f.line.index, f.got) := s.rqueue[0]], refill := Some(f.(got := f.got + 1)),
          rqueue := s.rqueue[1..])
  }

  function AckFillState(s: State): State {
    var place := Slot(s.way, s.index, s.offset);
    var t := s.(refill := None, phase := Idle);
    if s.request.op == Store then t.(ram := s.ram[place := Merge(Peek(s.ram, place), s.request.data, s.request.mask)])
    else t.(answer := Some(Answer(false, Peek(s.ram, place))))
  }

  function ReadRamState(s: State): State
    requires s.writeback.Some?
  {
    var b := s.writeback.value;
    s.(answer := Some(Answer(true, Peek(s.ram, Slot(b.way, b.line.index, b.sent)))))
  }

  function SendState(s: State): State
    requires s.writeback.Some? && s.answer.Some?
  {
    var b := s.writeback.value;
    s.(wqueue := s.wqueue + [s.answer.value.word], writeback := Some(b.(sent := b.sent + 1)), answer := None)
  }

  /** The memory performs the next write of the burst. */
  function MemoryWriteState(s: State): State
    requires s.writeback.Some? && s.wqueue != []
  {
    var b := s.writeback.value;
    s.(mem := s.mem[Place(b.line.tag, b.line.index, b.done) := s.wqueue[0]], writeback := Some(b.(done := b.done + 1)),
       wqueue := s.wqueue[1..])
  }

  function MemoryAckState(s: State): State
    requires s.writeback.Some?
  {
    s.(writeback := Some(s.writeback.value.(acked := true)))
  }

  function AckEvictState(s: State): State {
    s.(writeback := None, refill := Some(Refill(Line(s.request.tag, s.index), s.way, 0)), phase := Acquire)
  }

  function AckInvalidateState(s: State): State {
    s.(writeback := None, phase := Idle)
  }

  function ReadAckState(s: State): State {
    s.(answer := None, owed := if s.owed == [] then [] else s.owed[1..])
  }

  function TickState(s: State): State {
    s.(randomWay := if s.randomWay + 1 == s.ways then 0 else s.randomWay + 1)
  }

  datatype Rule =
    | Put(index: nat, offset: nat, r: Request)
    | TagMatch | BurstRead | Receive | AckFill | ReadRam | Send | BurstWrite | BurstAck | AckEvict | AckInvalidate
    | GetAnswer | Tick

  predicate Enabled(s: State, rule: Rule) {
    match rule
    case Put(i, o, _) => s.phase == Idle && i < s.sets && o < s.words
    case TagMatch => s.phase == Matching && (s.request.op == Load ==> s.answer.None?)
    case BurstRead => s.refill.Some? && s.refill.value.got + |s.rqueue| < s.words
    case Receive => s.refill.Some? && s.rqueue != []
    case AckFill => s.phase == Acquire && s.refill.Some? && s.refill.value.got == s.words
          && (s.request.op == Load ==> s.answer.None?)
    case ReadRam => s.writeback.Some? && s.writeback.value.sent < s.words && s.answer.None?
    case Send => s.writeback.Some? && s.writeback.value.sent < s.words && s.answer.Some? && s.answer.value.engine
    case BurstWrite => s.writeback.Some? && s.wqueue != []
    case BurstAck => s.writeback.Some? && s.writeback.value.done == s.words
    case AckEvict => s.phase == AcqRel && s.writeback.Some? && s.writeback.value.acked
    case AckInvalidate => s.phase == Release && s.writeback.Some? && s.writeback.value.acked
    case GetAnswer => s.answer.Some? && !s.answer.value.engine
    case Tick => true
  }

  function Apply(s: State, rule: Rule): State
    requires Sized(s) && Enabled(s, rule)
  {
    match rule
    case Put(i, o, r) => StartState(s, i, o, r)
    case TagMatch => MatchState(s)
    case BurstRead => MemoryReadState(s)
    case Receive => ReceiveState(s)
    case AckFill => AckFillState(s)
    case ReadRam => ReadRamState(s)
    case Send => SendState(s)
    case BurstWrite => MemoryWriteState(s)
    case BurstAck => MemoryAckState(s)
    case AckEvict => AckEvictState(s)
    case AckInvalidate => AckInvalidateState(s)
    case GetAnswer => ReadAckState(s)
    case Tick => TickState(s)
  }

  // ----- what each rule keeps

  /** A word of the line being written back reaches memory. */
  lemma {:induction false} LeavingStep(ram: Ram, mem: Flat, flat: Flat, words: nat, b: Writeback, queue: seq<Word>)
    requires Leaving(ram, mem, flat, words, b, queue) && queue != []
    ensures Leaving(ram, mem[Place(b.line.tag, b.line.index, b.done) := queue[0]], flat, words,
          b.(done := b.done + 1), queue[1..])
  {
  }

  lemma {:induction false} PendingFrame(mem: Flat, flat: Flat, words: nat, line: Line, offset: nat, r: Request,
        other: Line, o: nat, word: Word)
    requires Pending(mem, flat, words, line, offset, r) && other != line
    ensures Pending(mem[Place(other.tag, other.index, o) := word], flat, words, line, offset, r)
  {
  }

  /** A load that missed is owed the word after those already owed. */
  lemma {:induction false} OwedByMiss(answer: Option<Answer>, phase: Phase, r: Request, flat: Flat, index: nat,
        offset: nat)
    requires phase == Acquire || phase == AcqRel
    ensures var p := Place(r.tag, index, offset);
            var flat' := if r.op == Store then flat[p := Merge(Fetch(flat, p), r.data, r.mask)] else flat;
            Owed(answer, phase, r, flat', index, offset)
            == Owed(answer, Matching, r, flat, index, offset) + if r.op == Load then [Fetch(flat, p)] else []
  {
  }

  lemma {:induction false} UniqueTags(t: Tags, ram: Ram, mem: Flat, flat: Flat, sets: nat, ways: nat, words: nat)
    requires Shape(t, sets, ways) && Coherent(t, ram, mem, flat, sets, ways, words, None, None)
    ensures Unique(t, sets, ways)
  {
  }

  /** The evicted line is no longer marked anywhere. */
  lemma {:induction false} Evicted(t: Tags, sets: nat, ways: nat, i: nat, w: nat, tag: nat, dirty: bool)
    requires Shape(t, sets, ways) && i < sets && w < ways && Unique(t, sets, ways)
    requires t.valid[i][w] && t.tag[i][w] != tag
    ensures var u := SetWay(t, i, w, tag, true, dirty);
            Shape(u, sets, ways) && !Cached(u, Line(t.tag[i][w], i), sets, ways)
  {
    SetWayShape(t, sets, ways, i, w, tag, true, dirty);
    var u := SetWay(t, i, w, tag, true, dirty);
    forall v | 0 <= v < ways
      ensures !Holds(u, i, v, t.tag[i][w])
    {
    }
  }

  lemma {:induction false} InBounds(s: State)
    requires Inv(s)
    ensures Sized(s)
    ensures s.index < |s.tags.tag| == |s.tags.valid| == |s.tags.dirty|
    ensures |s.tags.tag[s.index]| == |s.tags.valid[s.index]| == |s.tags.dirty[s.index]| == s.ways
  {
  }

  /** The request misses, and way `w` is to be taken over. */
  ghost predicate Misses(s: State, w: nat) {
    && Sized(s) && s.phase == Matching && w < s.ways && s.request.op != Invalidate
    && !Cached(s.tags, Line(s.request.tag, s.index), s.sets, s.ways)
    && (s.request.op == Load ==> s.answer.None?)
  }

  lemma {:induction false} WayInBounds(s: State, w: nat)
    requires Misses(s, w)
    ensures w < s.ways
  {
  }

  lemma {:induction false} MissCleanInv(s: State, w: nat)
    requires Inv(s) && Misses(s, w) && !Evicts(s, w)
    ensures Inv(MissState(s, w))
  {
    SetWayHere(s.tags, s.sets, s.ways, s.index, w, s.request.tag, true, s.request.op == Store);
    OwedByMiss(s.answer, Acquire, s.request, s.flat, s.index, s.offset);
    hide Shape, SetWay, Coherent, Pending, Cached, Merge, Fetch, Peek, Owed, Leaving;
    TakeOver(s.tags, s.ram, s.mem, s.flat, FlatAfter(s), s.sets, s.ways, s.words, s.index, w, s.offset, s.request);
  }

  lemma {:induction false} MissDirtyInv(s: State, w: nat)
    requires Inv(s) && Misses(s, w) && Evicts(s, w)
    ensures Inv(MissState(s, w))
  {
    SetWayHere(s.tags, s.sets, s.ways, s.index, w, s.request.tag, true, s.request.op == Store);
    OwedByMiss(s.answer, AcqRel, s.request, s.flat, s.index, s.offset);
    UniqueTags(s.tags, s.ram, s.mem, s.flat, s.sets, s.ways, s.words);
    hide Shape, SetWay, Coherent, Pending, Cached, Merge, Fetch, Peek, Owed, Refilling, Unique;
    TakeOver(s.tags, s.ram, s.mem, s.flat, FlatAfter(s), s.sets, s.ways, s.words, s.index, w, s.offset, s.request);
    Evicted(s.tags, s.sets, s.ways, s.index, w, s.request.tag, s.request.op == Store);
  }

  /** A hit: the word is read, or merged, in its way. */
  lemma {:induction false} HitInv(s: State, w: nat)
    requires Inv(s) && s.phase == Matching && w < s.ways && Holds(s.tags, s.index, w, s.request.tag)
    requires s.request.op != Invalidate && (s.request.op == Load ==> s.answer.None?)
    ensures Inv(HitState(s, w))
  {
    assert WayAgrees(s.tags, s.ram, s.mem, s.flat, s.words, s.index, w);
    hide Coherent, Pending, Cached, Refilling, Leaving, Merge;
    HitStore(s.tags, s.ram, s.mem, s.flat, s.sets, s.ways, s.words, s.index, w, s.offset, s.request.data,
        s.request.mask);
  }

  /** An invalidated line is in no way any more, and in memory unless a write-back was
      started. */
  lemma {:induction false} HitInvalidateInv(s: State, w: nat)
    requires Inv(s) && s.phase == Matching && w < s.ways && Holds(s.tags, s.index, w, s.request.tag)
    requires s.request.op == Invalidate
    ensures Inv(HitInvalidateState(s, w))
    ensures var t, line := HitInvalidateState(s, w), Line(s.request.tag, s.index);
            && !Cached(t.tags, line, s.sets, s.ways)
            && (t.phase == Release || (t.phase == Idle && InMemory(s.mem, s.flat, s.words, line)))
  {
    assert WayAgrees(s.tags, s.ram, s.mem, s.flat, s.words, s.index, w);
    Drop(s.tags, s.ram, s.mem, s.flat, s.sets, s.ways, s.words, s.index, w, false);
    hide Coherent, Cached, SetWay, Refilling, Pending;
  }

  /** Tag matching is where an operation takes effect on the flat memory: a store
      changes it here, and the word a load will return is fixed here. */
  lemma {:induction false} MatchInv(s: State)
    requires Inv(s) && Enabled(s, TagMatch)
    ensures var t := MatchState(s);
            && Inv(t) && t.phase != Matching && t.mem == s.mem && t.flat == FlatAfter(s) && t.owed == Owes(s)
            && (s.request.op == Invalidate ==>
                  && !Cached(t.tags, Line(s.request.tag, s.index), s.sets, s.ways)
                  && (t.phase == Release || t.phase == Idle)
                  && (t.phase == Idle ==> InMemory(t.mem, t.flat, s.words, Line(s.request.tag, s.index))))
  {
    InBounds(s);
    Uncached(s);
    hide Inv, Cached, Holds, SetWay, Merge, FlatAfter, Owes, InMemory, LastWay;
    var w := WayOf(s);
    if s.request.op == Invalidate {
      NothingOwed(s);
      if Holds(s.tags, s.index, w, s.request.tag) {
        HitInvalidateInv(s, w);
      }
    } else if Holds(s.tags, s.index, w, s.request.tag) {
      HitInv(s, w);
    } else if s.tags.dirty[s.index][w] && s.tags.valid[s.index][w] {
      MissDirtyInv(s, w);
    } else {
      MissCleanInv(s, w);
    }
  }

  lemma {:induction false} NothingOwed(s: State)
    requires Inv(s) && s.phase == Matching && s.request.op == Invalidate
    ensures Inv(s.(phase := Idle)) && FlatAfter(s) == s.flat && Owes(s) == s.owed
  {
    hide Coherent, Cached;
  }

  /** The way that was found does not hold the line exactly when no way does, and an
      uncached line is in memory. */
  lemma {:induction false} Uncached(s: State)
    requires Inv(s) && s.phase == Matching
    ensures var line := Line(s.request.tag, s.index);
            && (Holds(s.tags, s.index, WayOf(s), s.request.tag) <==> Cached(s.tags, line, s.sets, s.ways))
            && (!Cached(s.tags, line, s.sets, s.ways) ==> InMemory(s.mem, s.flat, s.words, line))
  {
  }

  lemma {:induction false} ReceiveInv(s: State)
    requires Inv(s) && Enabled(s, Receive)
    ensures Inv(ReceiveState(s))
  {
    hide Coherent, Pending, Leaving, Cached, Shape, Owed;
    var f := s.refill.value;
    RefillFrame(s.tags, s.ram, s.mem, s.flat, s.sets, s.ways, s.words, f.line.index, f.way, f.got, s.rqueue[0], None);
  }

  lemma {:induction false} MemoryReadInv(s: State)
    requires Inv(s) && Enabled(s, BurstRead)
    ensures Inv(MemoryReadState(s))
  {
    hide Coherent, Pending, Leaving, Cached, Fetch, Peek;
  }

  lemma {:induction false} SendInv(s: State)
    requires Inv(s) && Enabled(s, Send)
    ensures Inv(SendState(s))
  {
    hide Coherent, Pending, Refilling, Cached;
  }

  lemma {:induction false} MemoryWriteInv(s: State)
    requires Inv(s) && Enabled(s, BurstWrite)
    ensures Inv(MemoryWriteState(s))
  {
    hide Coherent, Pending, Leaving, Refilling, Cached, Peek, Fetch, Owed, Shape;
    var b := s.writeback.value;
    LeavingStep(s.ram, s.mem, s.flat, s.words, b, s.wqueue);
    if s.phase == AcqRel {
      PendingFrame(s.mem, s.flat, s.words, Line(s.request.tag, s.index), s.offset, s.request, b.line, b.done,
          s.wqueue[0]);
    }
    WriteFrame(s.tags, s.ram, s.mem, s.flat, s.sets, s.ways, s.words, b.line, b.done, s.wqueue[0],
               if s.phase == AcqRel then Some((s.index, s.way)) else None);
  }

  lemma {:induction false} AckFillInv(s: State)
    requires Inv(s) && Enabled(s, AckFill)
    ensures var t := AckFillState(s);
            Inv(t) && (s.request.op != Store ==> t.answer == Some(Answer(false, Fetch(s.flat, Here(s)))))
  {
    Filled(s.tags, s.ram, s.mem, s.flat, s.sets, s.ways, s.words, s.index, s.way, s.offset, s.request);
    hide Coherent, Pending, Leaving, Cached, Refilling, Merge;
  }

  lemma {:induction false} ReadRamInv(s: State)
    requires Inv(s) && Enabled(s, ReadRam)
    ensures var t, b := ReadRamState(s), s.writeback.value;
            Inv(t) && t.answer == Some(Answer(true, Fetch(s.flat, Place(b.line.tag, b.line.index, b.sent))))
  {
    hide Coherent, Pending, Cached, Refilling;
  }

  lemma {:induction false} MemoryAckInv(s: State)
    requires Inv(s) && Enabled(s, BurstAck)
    ensures Inv(MemoryAckState(s))
  {
    hide Coherent, Pending, Cached, Refilling;
  }

  lemma {:induction false} AckEvictInv(s: State)
    requires Inv(s) && Enabled(s, AckEvict)
    ensures Inv(AckEvictState(s))
  {
    Left(s.tags, s.ram, s.mem, s.flat, s.sets, s.ways, s.words, Some((s.index, s.way)), s.writeback.value);
    hide Coherent, Pending, Cached, Leaving;
  }

  /** An invalidation is over: no way holds the line and memory has all of it. */
  lemma {:induction false} AckInvalidateInv(s: State)
    requires Inv(s) && Enabled(s, AckInvalidate)
    ensures var t, line := AckInvalidateState(s), Line(s.request.tag, s.index);
            Inv(t) && !Cached(t.tags, line, s.sets, s.ways) && InMemory(t.mem, t.flat, s.words, line)
  {
    Left(s.tags, s.ram, s.mem, s.flat, s.sets, s.ways, s.words, None, s.writeback.value);
    hide Coherent, Pending, Cached, Leaving, Refilling;
  }

  /** The word a load returns is the one its address held when it was matched. */
  lemma {:induction false} ReadAckInv(s: State)
    requires Inv(s) && Enabled(s, GetAnswer)
    ensures s.owed != [] && s.answer.value.word == s.owed[0] && Inv(ReadAckState(s))
  {
    hide Coherent, Pending, Cached, Leaving, Refilling;
  }

  /** Every rule keeps the invariant. */
  lemma {:induction false} StepKeeps(s: State, rule: Rule)
    requires Inv(s) && Enabled(s, rule)
    ensures Sized(s) && Inv(Apply(s, rule))
  {
    InBounds(s);
    match rule
    case Put(_, _, _) => hide Coherent, Pending, Cached, Leaving, Refilling, MatchState;
    case TagMatch => hide Inv, MatchState; MatchInv(s);
    case BurstRead => hide Inv; MemoryReadInv(s);
    case Receive => hide Inv; ReceiveInv(s);
    case AckFill => hide Inv; AckFillInv(s);
    case ReadRam => hide Inv; ReadRamInv(s);
    case Send => hide Inv; SendInv(s);
    case BurstWrite => hide Inv; MemoryWriteInv(s);
    case BurstAck => hide Inv; MemoryAckInv(s);
    case AckEvict => hide Inv; AckEvictInv(s);
    case AckInvalidate => hide Inv; AckInvalidateInv(s);
    case GetAnswer => hide Inv; ReadAckInv(s);
    case Tick => hide Coherent, Pending, Cached, Leaving, Refilling, MatchState;
  }

  /** While nothing is under way: a set holds a line once, and a clean line is in
      memory as the data RAM has it. */
  lemma {:induction false} IdleWays(s: State, i: nat, w: nat)
    requires Inv(s) && s.phase == Idle && i < s.sets && w < s.ways && s.tags.valid[i][w]
    ensures forall v :: 0 <= v < s.ways && s.tags.valid[i][v] && s.tags.tag[i][v] == s.tags.tag[i][w] ==> v == w
    ensures !s.tags.dirty[i][w] ==> forall o :: 0 <= o < s.words ==>
              Fetch(s.mem, Place(s.tags.tag[i][w], i, o)) == Peek(s.ram, Slot(w, i, o))
  {
    assert WayAgrees(s.tags, s.ram, s.mem, s.flat, s.words, i, w);
  }

  // ----- runs

  function Reset(sets: nat, ways: nat, words: nat, m: Flat): State {
    State(sets, ways, words,
          Tags(seq(sets, _ => seq(ways, _ => 0)), seq(sets, _ => seq(ways, _ => false)),
                seq(sets, _ => seq(ways, _ => false))),
          map[], m, Idle, 0, 0, Request(0, Load, ZERO, [false, false, false, false]), 0, 0, None, [], None, [], None,
                m, [])
  }

  lemma {:induction false} ResetHolds(sets: nat, ways: nat, words: nat, m: Flat)
    requires 0 < sets && 0 < ways && 0 < words
    ensures Inv(Reset(sets, ways, words, m))
  {
  }

  /** The rules fired one after another from reset: every sequence of requests, and
      every interleaving of rules and burst beats. */
  ghost predicate Run(ss: seq<State>, rules: seq<Rule>, sets: nat, ways: nat, words: nat, m: Flat) {
    && |ss| == |rules| + 1
    && ss[0] == Reset(sets, ways, words, m)
    && forall i :: 0 <= i < |rules| ==> Sized(ss[i]) && Enabled(ss[i], rules[i]) && ss[i + 1] == Apply(ss[i], rules[i])
  }

  /** What the processor sees: its operations in the order they are matched, and the
      words it gets back. */
  datatype Seen = Matched(p: Place, r: Request) | Got(word: Word)

  function Shows(s: State, rule: Rule): seq<Seen>
    requires Enabled(s, rule)
  {
    match rule
    case TagMatch => [Matched(Here(s), s.request)]
    case GetAnswer => [Got(s.answer.value.word)]
    case _ => []
  }

  /** What a run shows. */
  function History(ss: seq<State>, rules: seq<Rule>): seq<Seen>
    requires |ss| == |rules| + 1 && forall i :: 0 <= i < |rules| ==> Enabled(ss[i], rules[i])
    decreases |rules|
  {
    if rules == [] then []
    else
      var n := |rules| - 1;
      History(ss[..n + 1], rules[..n]) + Shows(ss[n], rules[n])
  }

  /** The flat memory, and the words its loads still have to return, after a history;
      nothing when some word returned was not the one the flat memory held. */
  function Replay(m: Flat, seen: seq<Seen>): Option<(Flat, seq<Word>)> {
    if seen == [] then Some((m, []))
    else
      var before := Replay(m, seen[..|seen| - 1]);
      if before.None? then None
      else
        var (flat, owed) := before.value;
        match seen[|seen| - 1]
        case Matched(p, r) =>
          Some((if r.op == Store then flat[p := Merge(Fetch(flat, p), r.data, r.mask)] else flat,
                owed + if r.op == Load then [Fetch(flat, p)] else []))
        case Got(word) => if owed != [] && owed[0] == word then Some((flat, owed[1..])) else None
  }

  lemma {:induction false} ReplayStep(m: Flat, seen: seq<Seen>, s: State, rule: Rule)
    requires Inv(s) && Enabled(s, rule) && Sized(s) && Replay(m, seen) == Some((s.flat, s.owed))
    ensures var t := Apply(s, rule); Replay(m, seen + Shows(s, rule)) == Some((t.flat, t.owed))
  {
    var step := Shows(s, rule);
    assert step == [] ==> seen + step == seen;
    assert step != [] ==> (seen + step)[..|seen|] == seen;
    match rule
    case TagMatch => hide Inv, MatchState, Merge; MatchInv(s);
    case GetAnswer => hide Inv; ReadAckInv(s);
    case _ => hide Inv, MatchState;
  }

  /** In every run the invariant holds and the words the processor gets are those of a
      flat memory that performs its operations, one at a time, as they are matched. */
  lemma {:induction false} EveryRun(ss: seq<State>, rules: seq<Rule>, sets: nat, ways: nat, words: nat, m: Flat)
    requires 0 < sets && 0 < ways && 0 < words && Run(ss, rules, sets, ways, words, m)
    ensures forall i :: 0 <= i < |ss| ==> Inv(ss[i])
    ensures Replay(m, History(ss, rules)) == Some((ss[|rules|].flat, ss[|rules|].owed))
    decreases |rules|
  {
    hide Inv, Sized, Apply, Enabled, Shows, Replay, Reset;
    if rules == [] {
      ResetHolds(sets, ways, words, m);
      FirstState(sets, ways, words, m);
    } else {
      var n := |rules| - 1;
      EveryRun(ss[..n + 1], rules[..n], sets, ways, words, m);
      assert ss[..n + 1][n] == ss[n];
      StepKeeps(ss[n], rules[n]);
      ReplayStep(m, History(ss[..n + 1], rules[..n]), ss[n], rules[n]);
    }
  }

  lemma {:induction false} FirstState(sets: nat, ways: nat, words: nat, m: Flat)
    ensures Replay(m, []) == Some((Reset(sets, ways, words, m).flat, Reset(sets, ways, words, m).owed))
  {
  }

  // ----- the registers

  class Cache {
    const sets: nat
    const ways: nat
    const words: nat
    var tags: Tags
    var ram: Ram
    var mem: Flat             // the memory behind the cache
    var phase: Phase
    var index: nat
    var offset: nat
    var request: Request      // the request FIFO head, then the saved `info`
    var way: nat
    var randomWay: nat
    var refill: Option<Refill>
    var rqueue: seq<Word>     // read responses on their way
    var writeback: Option<Writeback>
    var wqueue: seq<Word>     // write data on their way
    var answer: Option<Answer>
    ghost var flat: Flat      // the memory the processor should see
    ghost var owed: seq<Word> // the words its reads should return

    /** The registers and RAMs together. */
    ghost function St(): State
      reads this
    {
      State(sets, ways, words, tags, ram, mem, phase, index, offset, request, way, randomWay, refill, rqueue,
            writeback, wqueue, answer, flat, owed)
    }

    ghost predicate Valid()
      reads this
    {
      Inv(St())
    }

    constructor (nsets: nat, nways: nat, nwords: nat, m: Flat)
      requires 0 < nsets && 0 < nways && 0 < nwords
      ensures Valid() && St() == Reset(nsets, nways, nwords, m)
    {
      sets, ways, words := nsets, nways, nwords;
      tags := Tags(seq(nsets, _ => seq(nways, _ => 0)), seq(nsets, _ => seq(nways, _ => false)),
            seq(nsets, _ => seq(nways, _ => false)));
      ram, mem, flat, owed := map[], m, m, [];
      phase, index, offset, way, randomWay := Idle, 0, 0, 0, 0;
      request := Request(0, Load, ZERO, [false, false, false, false]);
      refill, rqueue, writeback, wqueue, answer := None, [], None, [], None;
    }

    method RandomStep()
      requires Valid()
      modifies this`randomWay
      ensures Valid() && St() == TickState(old(St()))
    {
      StepKeeps(St(), Tick);
      hide Inv;
      randomWay := if randomWay + 1 == ways then 0 else randomWay + 1;
    }

    method Start(i: nat, o: nat, r: Request)
      requires Valid() && phase == Idle && i < sets && o < words
      modifies this
      ensures Valid() && St() == StartState(old(St()), i, o, r)
    {
      StepKeeps(St(), Put(i, o, r));
      hide Inv;
      index, offset, request := i, o, r;
      phase := Matching;
    }

    /** The way that holds the line, the last one if there were several. */
    method Lookup() returns (hit: bool, w: nat)
      requires Valid() && phase == Matching
      ensures w == WayOf(St()) < ways && (hit <==> Holds(tags, index, w, request.tag))
      ensures hit <==> Cached(tags, Line(request.tag, index), sets, ways)
      ensures !hit ==> w == randomWay
    {
      Uncached(St());
      hit, w := false, randomWay;
      for k := 0 to ways
        invariant w < ways && (hit ==> Holds(tags, index, w, request.tag)) && (!hit ==> w == randomWay)
        invariant hit <==> exists v :: 0 <= v < k && Holds(tags, index, v, request.tag)
        invariant w == LastWay(tags, index, request.tag, k, randomWay)
      {
        if tags.tag[index][k] == request.tag && tags.valid[index][k] {
          assert Holds(tags, index, k, request.tag);
          w, hit := k, true;
        }
      }
    }

    method LoadHit(w: nat)
      requires Valid() && phase == Matching && w < ways && Holds(tags, index, w, request.tag)
      requires request.op == Load && answer.None?
      modifies this
      ensures Valid() && St() == HitState(old(St()), w)
    {
      hide Inv, Peek, FlatAfter, Owes;
      InBounds(St());
      HitInv(St(), w);
      owed, flat := Owes(St()), FlatAfter(St());
      answer := Some(Answer(false, Peek(ram, Slot(w, index, offset))));
      phase := Idle;
    }

    method StoreHit(w: nat)
      requires Valid() && phase == Matching && w < ways && Holds(tags, index, w, request.tag)
      requires request.op == Store
      modifies this
      ensures Valid() && St() == HitState(old(St()), w)
    {
      hide Inv, SetWay, Merge, Peek, FlatAfter, Owes;
      InBounds(St());
      HitInv(St(), w);
      owed, flat := Owes(St()), FlatAfter(St());
      var s := Slot(w, index, offset);
      tags := SetWay(tags, index, w, tags.tag[index][w], true, true);
      ram := ram[s := Merge(Peek(ram, s), request.data, request.mask)];
      phase := Idle;
    }

    method HitInvalidate(w: nat)
      requires Valid() && phase == Matching && w < ways && Holds(tags, index, w, request.tag)
      requires request.op == Invalidate
      modifies this
      ensures Valid() && St() == HitInvalidateState(old(St()), w)
    {
      hide Inv, SetWay;
      InBounds(St());
      HitInvalidateInv(St(), w);
      var dirty, tag := tags.dirty[index][w], tags.tag[index][w];
      tags := SetWay(tags, index, w, tag, false, false);
      if dirty {
        way := w;
        writeback := Some(Writeback(Line(tag, index), w, 0, 0, false));
        phase := Release;
      } else {
        phase := Idle;
      }
    }

    /** A miss takes over a dirty way: its line is written back first. */
    method MissDirty(w: nat)
      requires Valid() && Misses(St(), w) && Evicts(St(), w)
      modifies this
      ensures Valid() && St() == MissState(old(St()), w) && phase == AcqRel
    {
      hide Inv, FlatAfter, Owes, SetWay, Misses;
      InBounds(St());
      WayInBounds(St(), w);
      MissDirtyInv(St(), w);
      ghost var s := St();
      owed := Owes(s);
      flat := FlatAfter(s);
      writeback := Some(Writeback(Line(tags.tag[index][w], index), w, 0, 0, false));
      tags := SetWay(tags, index, w, request.tag, true, request.op == Store);
      way := w;
      phase := AcqRel;
      assert St() == MissState(s, w);
    }

    /** A miss takes over any other way: the new line is fetched at once. */
    method MissClean(w: nat)
      requires Valid() && Misses(St(), w) && !Evicts(St(), w)
      modifies this
      ensures Valid() && St() == MissState(old(St()), w) && phase == Acquire
    {
      hide Inv, FlatAfter, Owes, SetWay, Misses, Evicts;
      InBounds(St());
      WayInBounds(St(), w);
      MissCleanInv(St(), w);
      owed, flat := Owes(St()), FlatAfter(St());
      refill := Some(Refill(Line(request.tag, index), w, 0));
      tags := SetWay(tags, index, w, request.tag, true, request.op == Store);
      way := w;
      phase := Acquire;
    }

    /** Tag matching. This is where an operation takes effect on the flat memory: a
        store changes it here, and the word a load will return is fixed here. An
        invalidation of a line that is not dirty is over at once. */
    method Match()
      requires Valid() && phase == Matching && (request.op == Load ==> answer.None?)
      modifies this
      ensures Valid() && phase != Matching && St() == MatchState(old(St()))
      ensures mem == old(mem) && flat == FlatAfter(old(St())) && owed == Owes(old(St()))
      ensures old(request).op == Invalidate ==>
                && !Cached(tags, Line(old(request).tag, old(index)), sets, ways)
                && (phase == Release || phase == Idle)
                && (phase == Idle ==> InMemory(mem, flat, words, Line(old(request).tag, old(index))))
    {
      InBounds(St());
      MatchInv(St());
      hide Inv, SetWay, Cached, InMemory, FlatAfter, Owes, LastWay;
      var hit, w := Lookup();
      if hit && request.op == Invalidate {
        HitInvalidate(w);
      } else if hit && request.op == Load {
        LoadHit(w);
      } else if hit {
        StoreHit(w);
      } else if request.op == Invalidate {
        phase := Idle;
      } else if tags.dirty[index][w] && tags.valid[index][w] {
        MissDirty(w);
      } else {
        MissClean(w);
      }
    }

    // ----- the refill engine and the memory's read bursts

    /** The memory produces the next word of the burst. */
    method MemoryRead()
      requires Valid() && refill.Some? && refill.value.got + |rqueue| < words
      modifies this`rqueue
      ensures Valid() && St() == MemoryReadState(old(St()))
    {
      hide Inv;
      MemoryReadInv(St());
      var f := refill.value;
      rqueue := rqueue + [Fetch(mem, Place(f.line.tag, f.line.index, f.got + |rqueue|))];
    }

    method ReceiveWord()
      requires Valid() && refill.Some? && rqueue != []
      modifies this`ram, this`refill, this`rqueue
      ensures Valid() && St() == ReceiveState(old(St()))
    {
      hide Inv;
      ReceiveInv(St());
      var f := refill.value;
      ram := ram[Slot(f.way, f.line.index, f.got) := rqueue[0]];
      refill := Some(f.(got := f.got + 1));
      rqueue := rqueue[1..];
    }

    method AcquireBlockAck()
      requires Valid() && phase == Acquire && refill.Some? && refill.value.got == words
      requires request.op == Load ==> answer.None?
      modifies this
      ensures Valid() && St() == AckFillState(old(St()))
      ensures answer == if request.op == Store then old(answer) else Some(Answer(false, Fetch(flat, Here(old(St())))))
    {
      hide Inv, Merge, Peek, Fetch;
      AckFillInv(St());
      var s := Slot(way, index, offset);
      if request.op == Store {
        ram := ram[s := Merge(Peek(ram, s), request.data, request.mask)];
      } else {
        answer := Some(Answer(false, Peek(ram, s)));
      }
      refill := None;
      phase := Idle;
    }

    // ----- the write-back engine and the memory's write bursts

    method ReadBram()
      requires Valid() && writeback.Some? && writeback.value.sent < words && answer.None?
      modifies this`answer
      ensures Valid() && St() == ReadRamState(old(St()))
      ensures var b := writeback.value;
            answer == Some(Answer(true, Fetch(flat, Place(b.line.tag, b.line.index, b.sent))))
    {
      hide Inv, Peek, Fetch;
      ReadRamInv(St());
      var b := writeback.value;
      answer := Some(Answer(true, Peek(ram, Slot(b.way, b.line.index, b.sent))));
    }

    method SendWord()
      requires Valid() && writeback.Some? && writeback.value.sent < words && answer.Some? && answer.value.engine
      modifies this`writeback, this`wqueue, this`answer
      ensures Valid() && St() == SendState(old(St()))
    {
      hide Inv;
      SendInv(St());
      var b := writeback.value;
      wqueue := wqueue + [answer.value.word];
      writeback := Some(b.(sent := b.sent + 1));
      answer := None;
    }

    /** The memory performs the next write of the burst. */
    method MemoryWrite()
      requires Valid() && writeback.Some? && wqueue != []
      modifies this`mem, this`writeback, this`wqueue
      ensures Valid() && St() == MemoryWriteState(old(St()))
    {
      hide Inv;
      MemoryWriteInv(St());
      var b := writeback.value;
      mem := mem[Place(b.line.tag, b.line.index, b.done) := wqueue[0]];
      writeback := Some(b.(done := b.done + 1));
      wqueue := wqueue[1..];
    }

    /** The memory acknowledges the burst once all its words are written. */
    method MemoryAck()
      requires Valid() && writeback.Some? && writeback.value.done == words
      modifies this`writeback
      ensures Valid() && St() == MemoryAckState(old(St()))
    {
      hide Inv;
      MemoryAckInv(St());
      writeback := Some(writeback.value.(acked := true));
    }

    method ReleaseBlockAck()
      requires Valid() && phase == AcqRel && writeback.Some? && writeback.value.acked
      modifies this
      ensures Valid() && St() == AckEvictState(old(St()))
    {
      hide Inv;
      AckEvictInv(St());
      writeback := None;
      refill := Some(Refill(Line(request.tag, index), way, 0));
      phase := Acquire;
    }

    /** An invalidation is over: no way holds the line and memory has all of it. */
    method ReleaseBlockAckInv()
      requires Valid() && phase == Release && writeback.Some? && writeback.value.acked
      modifies this
      ensures Valid() && St() == AckInvalidateState(old(St()))
      ensures !Cached(tags, Line(request.tag, index), sets, ways)
      ensures InMemory(mem, flat, words, Line(request.tag, index))
    {
      hide Inv, Cached, InMemory;
      AckInvalidateInv(St());
      writeback := None;
      phase := Idle;
    }

    /** The word a load returns is the one its address held when it was matched. */
    method ReadAck() returns (word: Word)
      requires Valid() && answer.Some? && !answer.value.engine
      modifies this`answer, this`owed
      ensures Valid() && St() == ReadAckState(old(St()))
      ensures old(owed) != [] && word == old(owed)[0] == old(answer).value.word && owed == old(owed)[1..]
    {
      hide Inv;
      ReadAckInv(St());
      word := answer.value.word;
      answer := None;
      owed := owed[1..];
    }
  }

  /** The registers take the steps of the rules: a rule fires exactly when it is enabled,
      and shows what it should. */
  method Fire(c: Cache, rule: Rule) returns (fired: bool, step: seq<Seen>)
    requires c.Valid()
    modifies c
    ensures c.Valid() && (fired <==> Enabled(old(c.St()), rule))
    ensures fired ==> Sized(old(c.St())) && c.St() == Apply(old(c.St()), rule) && step == Shows(old(c.St()), rule)
    ensures !fired ==> c.St() == old(c.St()) && step == []
  {
    InBounds(c.St());
    hide Inv, MatchState, Sized, FlatAfter, Owes;
    fired, step := true, [];
    match rule {
      case Put(i, o, r) =>
        if c.phase == Idle && i < c.sets && o < c.words {
          c.Start(i, o, r);
        } else {
          fired := false;
        }
      case TagMatch =>
        if c.phase == Matching && (c.request.op == Load ==> c.answer.None?) {
          step := [Matched(Place(c.request.tag, c.index, c.offset), c.request)];
          c.Match();
        } else {
          fired := false;
        }
      case BurstRead =>
        if c.refill.Some? && c.refill.value.got + |c.rqueue| < c.words {
          c.MemoryRead();
        } else {
          fired := false;
        }
      case Receive =>
        if c.refill.Some? && c.rqueue != [] {
          c.ReceiveWord();
        } else {
          fired := false;
        }
      case AckFill =>
        if && c.phase == Acquire && c.refill.Some? && c.refill.value.got == c.words
           && (c.request.op == Load ==> c.answer.None?) {
          c.AcquireBlockAck();
        } else {
          fired := false;
        }
      case ReadRam =>
        if c.writeback.Some? && c.writeback.value.sent < c.words && c.answer.None? {
          c.ReadBram();
        } else {
          fired := false;
        }
      case Send =>
        if c.writeback.Some? && c.writeback.value.sent < c.words && c.answer.Some? && c.answer.value.engine {
          c.SendWord();
        } else {
          fired := false;
        }
      case BurstWrite =>
        if c.writeback.Some? && c.wqueue != [] {
          c.MemoryWrite();
        } else {
          fired := false;
        }
      case BurstAck =>
        if c.writeback.Some? && c.writeback.value.done == c.words {
          c.MemoryAck();
        } else {
          fired := false;
        }
      case AckEvict =>
        if c.phase == AcqRel && c.writeback.Some? && c.writeback.value.acked {
          c.ReleaseBlockAck();
        } else {
          fired := false;
        }
      case AckInvalidate =>
        if c.phase == Release && c.writeback.Some? && c.writeback.value.acked {
          c.ReleaseBlockAckInv();
        } else {
          fired := false;
        }
      case GetAnswer =>
        if c.answer.Some? && !c.answer.value.engine {
          var word := c.ReadAck();
          step := [Got(word)];
        } else {
          fired := false;
        }
      case Tick => c.RandomStep();
    }
  }

  // ----- address slices

  /** `{tag, index, offset, 2'b0}` of `mkDefaultBCache`, 20, 7 and 3 bits, for the
      number `n` of a word. */
  function PlaceOfWord(n: nat): Place {
    Place(n / 1024, n / 8 % 128, n % 8)
  }

  /** Two addresses are in the same place of the cache exactly when they are in the
      same word. */
  lemma {:induction false} PlacesAreWords(a: Addr, b: Addr)
    ensures PlaceOfWord(a / 4) == PlaceOfWord(b / 4) <==> WordOf(a) == WordOf(b)
    ensures PlaceOfWord(a / 4).index < 128 && PlaceOfWord(a / 4).offset < 8
  {
    Slices(a / 4);
    Slices(b / 4);
    assert WordOf(a) == 4 * (a / 4) && WordOf(b) == 4 * (b / 4);
  }

  lemma {:induction false} Slices(n: nat)
    ensures n == 1024 * PlaceOfWord(n).tag + 8 * PlaceOfWord(n).index + PlaceOfWord(n).offset
  {
    assert n == 8 * (n / 8) + n % 8;
    assert n / 8 == 128 * (n / 8 / 128) + n / 8 % 128;
    assert n / 8 / 128 == n / 1024;
  }
}
