/** Blocks streamed at once, their events interleaved across indices: the calls that come out are those
    of the response, in the order their blocks close. */
module StreamInterleaving {
  import opened Wrappers
  import opened Joining
  import opened Conversation
  import opened StreamEvents
  import opened StreamAgreement

  // ---- Interleavings ----

  /** The events naming a block's index that its streaming sends. */
  function OwnEvents(block: Block): seq<Event> {
    if block.CallBlock? then BlockSaid(block) else [Closes(block.index)]
  }

  predicate Distinct(blocks: seq<Block>) {
    forall i, j | 0 <= i < j < |blocks| :: blocks[i].index != blocks[j].index
  }

  /** The event neither ends the stream nor names an index that no block has. */
  predicate Expected(blocks: seq<Block>, event: Event) {
    && !event.MessageStop? && !event.Fails?
    && (event.Opens? || event.Fragment? || event.Closes? ==>
          exists k :: 0 <= k < |blocks| && blocks[k].index == event.index)
  }

  /** Every block's own events come in order, however the blocks' events, text and pings mix. */
  ghost predicate Interleaves(events: seq<Event>, blocks: seq<Block>) {
    && Distinct(blocks)
    && (forall i | 0 <= i < |events| :: Expected(blocks, events[i]))
    && (forall k | 0 <= k < |blocks| :: Only(events, blocks[k].index) == OwnEvents(blocks[k]))
  }

  /** Where the call block with this index is. */
  function CallAt(blocks: seq<Block>, index: nat): Option<nat> {
    if blocks == [] then None
    else
      var last := |blocks| - 1;
      if blocks[last].CallBlock? && blocks[last].index == index then Some(last) else CallAt(blocks[..last], index)
  }

  lemma {:induction false} CallAtIs(blocks: seq<Block>, index: nat)
    requires Distinct(blocks)
    ensures match CallAt(blocks, index)
            case Some(k) => k < |blocks| && blocks[k].CallBlock? && blocks[k].index == index
            case None => forall k | 0 <= k < |blocks| && blocks[k].CallBlock? :: blocks[k].index != index
    ensures forall k | 0 <= k < |blocks| && blocks[k].CallBlock? && blocks[k].index == index ::
              CallAt(blocks, index) == Some(k)
  {
    if blocks != [] {
      CallAtIs(blocks[..|blocks| - 1], index);
    }
  }

  /** The call blocks, by position, in the order they close. */
  function ClosingOrder(events: seq<Event>, blocks: seq<Block>): seq<nat> {
    if events == [] then []
    else
      var last := events[|events| - 1];
      ClosingOrder(events[..|events| - 1], blocks)
      + (if last.Closes? && CallAt(blocks, last.index).Some? then [CallAt(blocks, last.index).value] else [])
  }

  function CallOf(block: Block): ToolCall
    requires block.CallBlock?
  {
    ToolCall(block.id, block.name, block.input)
  }

  predicate CallPositions(blocks: seq<Block>, order: seq<nat>) {
    forall i | 0 <= i < |order| :: order[i] < |blocks| && blocks[order[i]].CallBlock?
  }

  function CallsInOrder(blocks: seq<Block>, order: seq<nat>): seq<ToolCall>
    requires CallPositions(blocks, order)
  {
    seq(|order|, i requires 0 <= i < |order| => CallOf(blocks[order[i]]))
  }

  // ---- What a block has assembled part way ----

  lemma {:induction false} PiecesSaidAt(block: Block, pieces: seq<string>, i: nat)
    requires i < |pieces|
    ensures |PiecesSaid(block, pieces)| == |pieces| && PiecesSaid(block, pieces)[i] == PieceSaid(block, pieces[i])
  {
    if i == 0 {
      PiecesSaidLength(block, pieces);
    } else {
      PiecesSaidAt(block, pieces[1..], i - 1);
    }
  }

  lemma {:induction false} PiecesSaidLength(block: Block, pieces: seq<string>)
    ensures |PiecesSaid(block, pieces)| == |pieces|
  {
    if pieces != [] {
      PiecesSaidLength(block, pieces[1..]);
    }
  }

  lemma OwnEventAt(block: Block, i: nat)
    requires block.CallBlock?
    ensures |OwnEvents(block)| == |block.pieces| + 2
    ensures i < |OwnEvents(block)| ==>
              OwnEvents(block)[i] == if i == 0 then Opens(block.index, block.id, block.name)
                                     else if i <= |block.pieces| then Fragment(block.index, block.pieces[i - 1])
                                     else Closes(block.index)
  {
    PiecesSaidLength(block, block.pieces);
    if 1 <= i <= |block.pieces| {
      PiecesSaidAt(block, block.pieces, i - 1);
    }
  }

  lemma {:induction false} ConcatenatedSnoc(pieces: seq<string>, last: string)
    ensures Concatenated(pieces + [last]) == Concatenated(pieces) + last
  {
    if pieces == [] {
      assert [] + [last] == [last] && [last][1..] == [];
      assert last + [] == last && [] + last == last;
    } else {
      assert (pieces + [last])[1..] == pieces[1..] + [last];
      ConcatenatedSnoc(pieces[1..], last);
      JoinAssociates(pieces[0], Concatenated(pieces[1..]), last);
    }
  }

  /** The first `m` of a call block's own events leave it with the first pieces, unless it has not opened
      or has closed. */
  lemma {:induction false} AssembledOwn(block: Block, m: nat)
    requires block.CallBlock? && m <= |block.pieces| + 2
    ensures m <= |OwnEvents(block)|
    ensures Assembled(OwnEvents(block)[..m], block.index)
         == if 1 <= m <= |block.pieces| + 1
            then Some(PendingCall(block.id, block.name, Concatenated(block.pieces[..m - 1])))
            else None
  {
    OwnEventAt(block, 0);
    if m > 0 {
      AssembledOwn(block, m - 1);
      OwnEventAt(block, m - 1);
      var own := OwnEvents(block);
      assert own[..m][..m - 1] == own[..m - 1] && own[..m][m - 1] == own[m - 1];
      if m == 1 {
        assert block.pieces[..0] == [];
      } else if m <= |block.pieces| + 1 {
        assert block.pieces[..m - 1] == block.pieces[..m - 2] + [block.pieces[m - 2]];
        ConcatenatedSnoc(block.pieces[..m - 2], block.pieces[m - 2]);
      }
    }
  }

  lemma {:induction false} ConcatenatedJoin(a: seq<string>, b: seq<string>)
    ensures Concatenated(a + b) == Concatenated(a) + Concatenated(b)
  {
    if a == [] {
      assert a + b == b;
    } else {
      assert (a + b)[1..] == a[1..] + b;
      ConcatenatedJoin(a[1..], b);
      JoinAssociates(a[0], Concatenated(a[1..]), Concatenated(b));
    }
  }

  /** No stretch of the pieces is longer than all of them. */
  lemma PiecesFit(pieces: seq<string>, m: nat)
    requires m < |pieces|
    ensures Utf8Len(Concatenated(pieces[..m])) + Utf8Len(pieces[m]) <= Utf8Len(Concatenated(pieces))
  {
    var before, after := pieces[..m], pieces[m + 1..];
    var upTo := before + [pieces[m]];
    SplitAround(pieces, m);
    ConcatenatedJoin(upTo, after);
    ConcatenatedSnoc(before, pieces[m]);
    Utf8LenJoin(Concatenated(before), pieces[m]);
    Utf8LenJoin(Concatenated(upTo), Concatenated(after));
  }

  // ---- Part way through an interleaving ----

  lemma OnlySnoc(front: seq<Event>, last: Event, index: nat)
    ensures Only(front + [last], index) == Only(front, index) + (if Concerns(last, index) then [last] else [])
  {
    assert (front + [last])[..|front|] == front;
  }

  lemma {:induction false} OnlyGrows(events: seq<Event>, n: nat, index: nat)
    requires n <= |events|
    ensures Only(events[..n], index) <= Only(events, index)
    decreases |events| - n
  {
    if n == |events| {
      assert events[..n] == events;
    } else {
      OnlyGrows(events, n + 1, index);
      assert events[..n + 1] == events[..n] + [events[n]];
      OnlySnoc(events[..n], events[n], index);
    }
  }

  /** The next event for a block is the next of its own. */
  lemma NextIsOwn(events: seq<Event>, blocks: seq<Block>, n: nat, k: nat)
    requires Interleaves(events, blocks) && n < |events| && k < |blocks| && Concerns(events[n], blocks[k].index)
    ensures var m := |Only(events[..n], blocks[k].index)|;
            && m < |OwnEvents(blocks[k])| && OwnEvents(blocks[k])[m] == events[n]
            && Only(events[..n], blocks[k].index) == OwnEvents(blocks[k])[..m]
  {
    var index := blocks[k].index;
    OnlyGrows(events, n, index);
    OnlyGrows(events, n + 1, index);
    assert events[..n + 1] == events[..n] + [events[n]];
    OnlySnoc(events[..n], events[n], index);
    var m := |Only(events[..n], index)|;
    assert Only(events[..n + 1], index)[m] == events[n];
  }

  /** What is held for a call block when its next event comes. */
  lemma HeldForNext(events: seq<Event>, blocks: seq<Block>, n: nat, k: nat)
    requires Interleaves(events, blocks) && n < |events| && k < |blocks| && Concerns(events[n], blocks[k].index)
    requires blocks[k].CallBlock?
    ensures var block := blocks[k];
            && (events[n].Fragment? ==>
                  exists m: nat :: m < |block.pieces| && events[n].text == block.pieces[m]
                    && Assembled(events[..n], block.index)
                       == Some(PendingCall(block.id, block.name, Concatenated(block.pieces[..m]))))
            && (events[n].Closes? ==>
                  Assembled(events[..n], block.index)
                  == Some(PendingCall(block.id, block.name, Concatenated(block.pieces))))
  {
    var block := blocks[k];
    NextIsOwn(events, blocks, n, k);
    var m := |Only(events[..n], block.index)|;
    OwnEventAt(block, m);
    AssembledOwn(block, m);
    OthersDoNotInterfere(events[..n], block.index);
    if events[n].Fragment? {
      assert m - 1 < |block.pieces| && events[n].text == block.pieces[m - 1];
    }
    assert block.pieces[..|block.pieces|] == block.pieces;
  }

  lemma NeverHeldForText(events: seq<Event>, blocks: seq<Block>, n: nat, k: nat)
    requires Interleaves(events, blocks) && n < |events| && k < |blocks| && Concerns(events[n], blocks[k].index)
    requires blocks[k].TextBlock?
    ensures events[n].Closes? && Assembled(events[..n], blocks[k].index) == None
  {
    NextIsOwn(events, blocks, n, k);
    OthersDoNotInterfere(events[..n], blocks[k].index);
  }

  // ---- What comes out ----

  /** What one event of an interleaving yields: the call of a call block that closes, and otherwise no
      call; it never fails. */
  ghost predicate Yields(step: Handled, before: Decoder, call: Option<ToolCall>) {
    && !step.over
    && CallsIn(Parts(step.items)) == (if call.Some? then [call.value] else [])
    && step.decoder.sawToolCall == (before.sawToolCall || call.Some?)
  }

  lemma QuietYields(codec: Codec, d: Decoder, event: Event)
    requires event.MessageStart? || event.Opens? || event.MessageDelta? || event.Ignored?
    ensures Yields(Handle(codec, d, event), d, None)
  {
  }

  lemma SaysYields(codec: Codec, d: Decoder, text: string)
    ensures Yields(Handle(codec, d, Says(text)), d, None)
  {
    var step := Handle(codec, d, Says(text));
    assert step.items == [Yielded(Delta(text))];
    assert Parts(step.items) == [Text(text)] + [];
    CallsInSnoc([], Text(text));
    assert [] + [Text(text)] == [Text(text)];
  }

  lemma FragmentYields(codec: Codec, d: Decoder, index: nat, text: string)
    requires index in d.state.pending
    requires Utf8Len(d.state.pending[index].arguments) + Utf8Len(text) <= MAX_TOOL_INPUT_BYTES
    ensures Yields(Handle(codec, d, Fragment(index, text)), d, None)
  {
  }

  lemma ClosesNothing(codec: Codec, d: Decoder, index: nat)
    requires index !in d.state.pending
    ensures Yields(Handle(codec, d, Closes(index)), d, None)
  {
  }

  lemma ClosesYields(codec: Codec, d: Decoder, block: Block)
    requires block.CallBlock? && Streamable(codec, block) && block.index in d.state.pending
    requires d.state.pending[block.index] == PendingCall(block.id, block.name, Concatenated(block.pieces))
    ensures Yields(Handle(codec, d, Closes(block.index)), d, Some(CallOf(block)))
  {
    assert Complete(codec, d.state.pending[block.index]) == Success(CallOf(block));
    var step, chunks := Handle(codec, d, Closes(block.index)), [CallChunk(CallOf(block))];
    assert chunks[0] in chunks;
    assert step.items == [Yielded(chunks[0])];
    assert Parts(step.items) == [Call(CallOf(block))] + [];
    CallsInSnoc([], Call(CallOf(block)));
    assert [] + [Call(CallOf(block))] == [Call(CallOf(block))];
  }

  /** The call that closes at event `n`, if one does. */
  function ClosedAt(events: seq<Event>, blocks: seq<Block>, n: nat): Option<ToolCall>
    requires n < |events| && Distinct(blocks)
  {
    if events[n].Closes? then
      CallAtIs(blocks, events[n].index);
      match CallAt(blocks, events[n].index)
      case Some(k) => Some(CallOf(blocks[k]))
      case None => None
    else None
  }

  /** The decoder holds what has been assembled. */
  ghost predicate Holds(d: Decoder, events: seq<Event>) {
    && (forall i: nat :: Assembled(events, i).Some? <==> i in d.state.pending)
    && (forall i | i in d.state.pending :: Assembled(events, i) == Some(d.state.pending[i]))
  }

  lemma TextBlockYields(codec: Codec, d: Decoder, events: seq<Event>, blocks: seq<Block>, n: nat, k: nat)
    requires Interleaves(events, blocks) && n < |events| && k < |blocks| && Concerns(events[n], blocks[k].index)
    requires blocks[k].TextBlock? && Holds(d, events[..n])
    ensures Yields(Handle(codec, d, events[n]), d, None)
  {
    NeverHeldForText(events, blocks, n, k);
    ClosesNothing(codec, d, events[n].index);
  }

  lemma CallFragmentYields(codec: Codec, d: Decoder, events: seq<Event>, blocks: seq<Block>, n: nat, k: nat)
    requires Interleaves(events, blocks) && n < |events| && k < |blocks| && Concerns(events[n], blocks[k].index)
    requires blocks[k].CallBlock? && Streamable(codec, blocks[k]) && Holds(d, events[..n]) && events[n].Fragment?
    ensures Yields(Handle(codec, d, events[n]), d, None)
  {
    var block := blocks[k];
    HeldForNext(events, blocks, n, k);
    var m: nat :| m < |block.pieces| && events[n].text == block.pieces[m]
                  && Assembled(events[..n], block.index)
                     == Some(PendingCall(block.id, block.name, Concatenated(block.pieces[..m])));
    PiecesFit(block.pieces, m);
    FragmentYields(codec, d, block.index, events[n].text);
  }

  lemma CallCloseYields(codec: Codec, d: Decoder, events: seq<Event>, blocks: seq<Block>, n: nat, k: nat)
    requires Interleaves(events, blocks) && n < |events| && k < |blocks| && Concerns(events[n], blocks[k].index)
    requires blocks[k].CallBlock? && Streamable(codec, blocks[k]) && Holds(d, events[..n]) && events[n].Closes?
    ensures Yields(Handle(codec, d, events[n]), d, Some(CallOf(blocks[k])))
  {
    HeldForNext(events, blocks, n, k);
    ClosesYields(codec, d, blocks[k]);
  }

  lemma ClosedAtIs(events: seq<Event>, blocks: seq<Block>, n: nat, k: nat)
    requires Distinct(blocks) && n < |events| && k < |blocks| && Concerns(events[n], blocks[k].index)
    ensures ClosedAt(events, blocks, n)
         == if events[n].Closes? && blocks[k].CallBlock? then Some(CallOf(blocks[k])) else None
  {
    CallAtIs(blocks, events[n].index);
  }

  lemma BlockEventYields(codec: Codec, d: Decoder, events: seq<Event>, blocks: seq<Block>, n: nat, k: nat)
    requires Interleaves(events, blocks) && n < |events| && k < |blocks| && Concerns(events[n], blocks[k].index)
    requires Streamable(codec, blocks[k]) && Holds(d, events[..n]) && (events[n].Fragment? || events[n].Closes?)
    ensures Yields(Handle(codec, d, events[n]), d, ClosedAt(events, blocks, n))
  {
    ClosedAtIs(events, blocks, n, k);
    if blocks[k].TextBlock? {
      TextBlockYields(codec, d, events, blocks, n, k);
    } else if events[n].Fragment? {
      CallFragmentYields(codec, d, events, blocks, n, k);
    } else {
      CallCloseYields(codec, d, events, blocks, n, k);
    }
  }

  lemma NextYields(codec: Codec, d: Decoder, events: seq<Event>, blocks: seq<Block>, n: nat)
    requires Interleaves(events, blocks) && n < |events| && Holds(d, events[..n])
    requires forall k | 0 <= k < |blocks| :: Streamable(codec, blocks[k])
    ensures Yields(Handle(codec, d, events[n]), d, ClosedAt(events, blocks, n))
  {
    assert Expected(blocks, events[n]);
    if events[n].Fragment? || events[n].Closes? {
      var k :| 0 <= k < |blocks| && blocks[k].index == events[n].index;
      BlockEventYields(codec, d, events, blocks, n, k);
    } else if events[n].Says? {
      SaysYields(codec, d, events[n].text);
    } else {
      QuietYields(codec, d, events[n]);
    }
  }

  lemma {:induction false} OrderIsOfCalls(events: seq<Event>, blocks: seq<Block>)
    requires Distinct(blocks)
    ensures CallPositions(blocks, ClosingOrder(events, blocks))
  {
    if events != [] {
      OrderIsOfCalls(events[..|events| - 1], blocks);
      if events[|events| - 1].Closes? {
        CallAtIs(blocks, events[|events| - 1].index);
      }
    }
  }

  lemma {:induction false} CallsInJoin(a: seq<ContentPart>, b: seq<ContentPart>)
    ensures CallsIn(a + b) == CallsIn(a) + CallsIn(b)
  {
    if a == [] {
      assert a + b == b;
    } else {
      assert (a + b)[1..] == a[1..] + b;
      CallsInJoin(a[1..], b);
      JoinAssociates(if a[0].Call? then [a[0].call] else [], CallsIn(a[1..]), CallsIn(b));
    }
  }

  /** After `front`, the event `last` yields this call or none. */
  ghost predicate YieldsNext(codec: Codec, front: seq<Event>, last: Event, call: Option<ToolCall>) {
    var before := HandleAll(codec, FRESH, front);
    !before.over && Yields(Handle(codec, before.decoder, last), before.decoder, call)
  }

  lemma YieldsMore(codec: Codec, events: seq<Event>, front: seq<Event>, last: Event, call: Option<ToolCall>)
    requires events == front + [last] && YieldsNext(codec, front, last, call)
    ensures var before, after := HandleAll(codec, FRESH, front), HandleAll(codec, FRESH, events);
            && !after.over
            && CallsIn(Parts(after.items)) == CallsIn(Parts(before.items)) + (if call.Some? then [call.value] else [])
            && after.decoder.sawToolCall == (before.decoder.sawToolCall || call.Some?)
  {
    var before := HandleAll(codec, FRESH, front);
    var step := Handle(codec, before.decoder, last);
    HandleAllSnoc(codec, FRESH, front, last);
    PartsJoin(before.items, step.items);
    CallsInJoin(Parts(before.items), Parts(step.items));
  }

  lemma OrderNext(events: seq<Event>, blocks: seq<Block>, n: nat)
    requires n < |events|
    ensures ClosingOrder(events[..n + 1], blocks)
         == ClosingOrder(events[..n], blocks)
            + (if events[n].Closes? && CallAt(blocks, events[n].index).Some?
               then [CallAt(blocks, events[n].index).value] else [])
  {
    assert events[..n + 1][..n] == events[..n] && events[..n + 1][n] == events[n];
  }

  lemma OrderGrows(events: seq<Event>, blocks: seq<Block>, n: nat)
    requires Distinct(blocks) && n < |events|
    ensures CallPositions(blocks, ClosingOrder(events[..n], blocks))
    ensures CallPositions(blocks, ClosingOrder(events[..n + 1], blocks))
    ensures var closed := ClosedAt(events, blocks, n);
            && CallsInOrder(blocks, ClosingOrder(events[..n + 1], blocks))
                == CallsInOrder(blocks, ClosingOrder(events[..n], blocks))
                   + (if closed.Some? then [closed.value] else [])
            && |ClosingOrder(events[..n + 1], blocks)|
               == |ClosingOrder(events[..n], blocks)| + (if closed.Some? then 1 else 0)
  {
    OrderIsOfCalls(events[..n], blocks);
    OrderIsOfCalls(events[..n + 1], blocks);
    OrderNext(events, blocks, n);
  }

  /** What has come out of `events` so far is the calls closed so far. */
  ghost predicate YieldedSoFar(codec: Codec, blocks: seq<Block>, events: seq<Event>) {
    var all := HandleAll(codec, FRESH, events);
    && CallPositions(blocks, ClosingOrder(events, blocks))
    && !all.over
    && CallsIn(Parts(all.items)) == CallsInOrder(blocks, ClosingOrder(events, blocks))
    && all.decoder.sawToolCall == (|ClosingOrder(events, blocks)| > 0)
  }

  lemma YieldsOn(codec: Codec, events: seq<Event>, blocks: seq<Block>, n: nat)
    requires Interleaves(events, blocks) && n < |events|
    requires forall k | 0 <= k < |blocks| :: Streamable(codec, blocks[k])
    requires !HandleAll(codec, FRESH, events[..n]).over
    ensures YieldsNext(codec, events[..n], events[n], ClosedAt(events, blocks, n))
  {
    PendingIsAssembled(codec, events[..n]);
    NextYields(codec, HandleAll(codec, FRESH, events[..n]).decoder, events, blocks, n);
  }

  /** One more event, one more call or none. */
  lemma TellsMore(codec: Codec, events: seq<Event>, blocks: seq<Block>, n: nat)
    requires Interleaves(events, blocks) && n < |events|
    requires forall k | 0 <= k < |blocks| :: Streamable(codec, blocks[k])
    requires !HandleAll(codec, FRESH, events[..n]).over
    ensures var before, after := HandleAll(codec, FRESH, events[..n]), HandleAll(codec, FRESH, events[..n + 1]);
            var closed := ClosedAt(events, blocks, n);
            && !after.over
            && CallsIn(Parts(after.items))
               == CallsIn(Parts(before.items)) + (if closed.Some? then [closed.value] else [])
            && after.decoder.sawToolCall == (before.decoder.sawToolCall || closed.Some?)
  {
    YieldsOn(codec, events, blocks, n);
    YieldsMore(codec, events[..n + 1], events[..n], events[n], ClosedAt(events, blocks, n));
  }

  lemma InterleavedOn(codec: Codec, events: seq<Event>, blocks: seq<Block>, n: nat)
    requires Interleaves(events, blocks) && n < |events|
    requires forall k | 0 <= k < |blocks| :: Streamable(codec, blocks[k])
    requires YieldedSoFar(codec, blocks, events[..n])
    ensures YieldedSoFar(codec, blocks, events[..n + 1])
  {
    OrderGrows(events, blocks, n);
    TellsMore(codec, events, blocks, n);
  }

  lemma {:induction false} InterleavedSoFar(codec: Codec, events: seq<Event>, blocks: seq<Block>, n: nat)
    requires Interleaves(events, blocks) && n <= |events|
    requires forall k | 0 <= k < |blocks| :: Streamable(codec, blocks[k])
    ensures YieldedSoFar(codec, blocks, events[..n])
  {
    if n > 0 {
      InterleavedSoFar(codec, events, blocks, n - 1);
      InterleavedOn(codec, events, blocks, n - 1);
    }
  }

  // ---- Each block closes once ----

  lemma {:induction false} ConcernsCounted(events: seq<Event>, index: nat, i: nat)
    requires i < |events| && Concerns(events[i], index)
    ensures |Only(events[..i], index)| < |Only(events, index)|
    ensures Only(events, index)[|Only(events[..i], index)|] == events[i]
  {
    assert events[..i + 1] == events[..i] + [events[i]];
    OnlySnoc(events[..i], events[i], index);
    OnlyGrows(events, i + 1, index);
    assert Only(events[..i + 1], index)[|Only(events[..i], index)|] == events[i];
  }

  lemma OnlyGrowsBetween(events: seq<Event>, index: nat, i: nat, j: nat)
    requires i < j <= |events| && Concerns(events[i], index)
    ensures |Only(events[..i], index)| < |Only(events[..j], index)|
  {
    assert events[..j][..i] == events[..i];
    ConcernsCounted(events[..j], index, i);
  }

  /** A block closes at the last of its own events, so only once. */
  lemma ClosesOnce(events: seq<Event>, blocks: seq<Block>, k: nat, i: nat, j: nat)
    requires Interleaves(events, blocks) && k < |blocks| && i < |events| && j < |events|
    requires events[i] == Closes(blocks[k].index) && events[j] == Closes(blocks[k].index)
    ensures i == j
  {
    var index := blocks[k].index;
    ClosesLast(events, blocks, k, i);
    ClosesLast(events, blocks, k, j);
    if i < j {
      OnlyGrowsBetween(events, index, i, j);
    } else if j < i {
      OnlyGrowsBetween(events, index, j, i);
    }
  }

  lemma ClosesLast(events: seq<Event>, blocks: seq<Block>, k: nat, i: nat)
    requires Interleaves(events, blocks) && k < |blocks| && i < |events| && events[i] == Closes(blocks[k].index)
    ensures |Only(events[..i], blocks[k].index)| == |OwnEvents(blocks[k])| - 1
  {
    NextIsOwn(events, blocks, i, k);
    if blocks[k].CallBlock? {
      OwnEventAt(blocks[k], |Only(events[..i], blocks[k].index)|);
    }
  }

  lemma {:induction false} InOnlyInEvents(events: seq<Event>, index: nat, m: nat) returns (i: nat)
    requires m < |Only(events, index)|
    ensures i < |events| && events[i] == Only(events, index)[m]
  {
    var front, last := events[..|events| - 1], events[|events| - 1];
    if m < |Only(front, index)| {
      i := InOnlyInEvents(front, index, m);
    } else {
      i := |events| - 1;
    }
  }

  lemma {:induction false} OrderHolds(events: seq<Event>, blocks: seq<Block>, i: nat, k: nat)
    requires Distinct(blocks) && i < |events| && events[i].Closes? && CallAt(blocks, events[i].index) == Some(k)
    ensures k in ClosingOrder(events, blocks)
  {
    if i < |events| - 1 {
      OrderHolds(events[..|events| - 1], blocks, i, k);
    }
  }

  lemma {:induction false} OrderComesFrom(events: seq<Event>, blocks: seq<Block>, k: nat) returns (i: nat)
    requires Distinct(blocks) && k in ClosingOrder(events, blocks)
    ensures i < |events| && events[i].Closes? && CallAt(blocks, events[i].index) == Some(k)
  {
    var front, last := events[..|events| - 1], events[|events| - 1];
    if last.Closes? && CallAt(blocks, last.index) == Some(k) {
      i := |events| - 1;
    } else {
      i := OrderComesFrom(front, blocks, k);
    }
  }

  /** Every call block is in the closing order. */
  lemma EveryCallCloses(events: seq<Event>, blocks: seq<Block>, k: nat)
    requires Interleaves(events, blocks) && k < |blocks| && blocks[k].CallBlock?
    ensures k in ClosingOrder(events, blocks)
  {
    OwnEventAt(blocks[k], |blocks[k].pieces| + 1);
    var i := InOnlyInEvents(events, blocks[k].index, |blocks[k].pieces| + 1);
    CallAtIs(blocks, blocks[k].index);
    OrderHolds(events, blocks, i, k);
  }

  predicate NoRepeats(order: seq<nat>) {
    forall i, j | 0 <= i < j < |order| :: order[i] != order[j]
  }

  lemma StillNoRepeats(order: seq<nat>, k: nat)
    requires NoRepeats(order) && k !in order
    ensures NoRepeats(order + [k])
  {
  }

  lemma NotYetClosed(events: seq<Event>, blocks: seq<Block>, n: nat, k: nat)
    requires Interleaves(events, blocks) && n < |events|
    requires events[n].Closes? && CallAt(blocks, events[n].index) == Some(k)
    ensures k !in ClosingOrder(events[..n], blocks)
  {
    if k in ClosingOrder(events[..n], blocks) {
      var i := OrderComesFrom(events[..n], blocks, k);
      CallAtIs(blocks, events[n].index);
      CallAtIs(blocks, events[..n][i].index);
      ClosesOnce(events, blocks, k, i, n);
    }
  }

  /** And is there once. */
  lemma {:induction false} OrderIsDistinct(events: seq<Event>, blocks: seq<Block>, n: nat)
    requires Interleaves(events, blocks) && n <= |events|
    ensures NoRepeats(ClosingOrder(events[..n], blocks))
  {
    if n > 0 {
      OrderIsDistinct(events, blocks, n - 1);
      OrderNext(events, blocks, n - 1);
      if events[n - 1].Closes? && CallAt(blocks, events[n - 1].index).Some? {
        NotYetClosed(events, blocks, n - 1, CallAt(blocks, events[n - 1].index).value);
        StillNoRepeats(ClosingOrder(events[..n - 1], blocks), CallAt(blocks, events[n - 1].index).value);
      }
    }
  }

  /** However the events of the blocks are interleaved, nothing fails, and the calls that come out are
      the response's call blocks, each once, in the order they close; the response is known to have
      asked for tools exactly when it has one. */
  lemma InterleavedBlocksYieldTheirCalls(codec: Codec, events: seq<Event>, blocks: seq<Block>)
    requires Interleaves(events, blocks)
    requires forall k | 0 <= k < |blocks| :: Streamable(codec, blocks[k])
    ensures var order := ClosingOrder(events, blocks);
            && NoRepeats(order)
            && (forall k: nat :: k in order <==> k < |blocks| && blocks[k].CallBlock?)
    ensures CallPositions(blocks, ClosingOrder(events, blocks))
    ensures var all := HandleAll(codec, FRESH, events);
            && !all.over
            && CallsIn(Parts(all.items)) == CallsInOrder(blocks, ClosingOrder(events, blocks))
            && (all.decoder.sawToolCall <==> AnyCall(blocks))
  {
    assert events[..|events|] == events;
    InterleavedSoFar(codec, events, blocks, |events|);
    OrderIsDistinct(events, blocks, |events|);
    var order := ClosingOrder(events, blocks);
    forall k: nat ensures k in order <==> k < |blocks| && blocks[k].CallBlock? {
      if k < |blocks| && blocks[k].CallBlock? {
        EveryCallCloses(events, blocks, k);
      }
    }
    assert order != [] ==> order[0] in order;
  }
}
