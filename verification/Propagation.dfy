/** Carrying tags from the inputs of a block to its outputs after a work call. */
module Propagation {
  import opened Rounding
  import opened Rates
  import opened Buffers

  datatype Policy = DontPropagate | AllToAll | OneToOne

  // ---- Where a tag lands ----

  /** The relative rate of a block: whether it is exactly one, and what `offset *= rrate` makes of an
      offset, the fraction cut off, as the machine rounds it. */
  datatype Scale = Scale(unit: bool, land: nat -> nat)

  /** A rate of exactly one leaves offsets as they are. */
  ghost predicate ScaleOk(scale: Scale) { scale.unit ==> forall x: nat :: scale.land(x) == x }

  /** A tag as it is added to an output: at its new place, and deleted for nobody. */
  function Carried(t: Tag, scale: Scale): Item { Item(t.(offset := scale.land(t.offset)), []) }

  function CarriedAll(tags: seq<Tag>, scale: Scale): (r: seq<Item>)
    ensures |r| == |tags| && forall i :: 0 <= i < |tags| ==> r[i] == Carried(tags[i], scale)
  {
    seq(|tags|, i requires 0 <= i < |tags| => Carried(tags[i], scale))
  }

  /** A block of fixed rate that has read and written in step with its rate. */
  ghost predicate InStep(r: Rate, read: nat, written: nat) {
    match r
    case Sync => read == written
    case Decimator(factor) => read == written * factor
    case Interpolator(factor) => written == read * factor
  }

  lemma CallKeepsStep(r: Rate, read: nat, written: nat, n: nat)
    requires InStep(r, read, written) && Whole(r, n)
    ensures InStep(r, read + Uses(r, n), written + n)
  {
    match r {
      case Sync =>
      case Decimator(factor) => assert (written + n) * factor == written * factor + n * factor;
      case Interpolator(factor) =>
        WholeQuotient(n, factor);
        assert (read + n / factor) * factor == read * factor + n / factor * factor;
    }
  }

  /** A tag on an item that a call consumes lands on an item that the same call produces; or one item
      before, exactly if it is on the first item of the call and the product is rounded below. */
  lemma TagLands(r: Rate, read: nat, written: nat, n: nat, offset: nat, y: nat)
    requires InStep(r, read, written) && Whole(r, n) && read <= offset < read + Uses(r, n) && EstimatedAt(r, offset, y)
    ensures written <= y + 1 && y < written + n
    ensures y < written <==> offset == read && y + 1 == written
  {
    match r {
      case Sync =>
      case Decimator(factor) => LandsOnQuotient(offset, factor, written, n, y);
      case Interpolator(factor) =>
        WholeQuotient(n, factor);
        LandsOnProduct(offset, factor, read, n / factor);
    }
  }

  lemma LandsOnProduct(offset: nat, d: Pos, read: nat, q: nat)
    requires read <= offset < read + q
    ensures read * d <= offset * d < read * d + q * d
  {
    assert (read + q) * d == read * d + q * d;
    Ordered(read, offset, d);
    SpreadOut(offset, read + q, d);
  }

  lemma LandsOnQuotient(offset: nat, d: Pos, written: nat, n: nat, y: nat)
    requires written * d <= offset < written * d + n * d && EstimatedAt(Decimator(d), offset, y)
    ensures written <= y + 1 && y < written + n
    ensures y < written <==> offset == written * d && y + 1 == written
  {
    Divides(offset, d, written);
    assert (written + n) * d == written * d + n * d;
    Divides(offset, d, written + n);
    if offset % d == 0 && offset / d == written {
      assert offset == offset / d * d + offset % d;
    }
  }

  /** What a history of work calls has read and written. */
  function ReadBy(r: Rate, calls: seq<nat>): nat {
    if calls == [] then 0 else ReadBy(r, calls[..|calls| - 1]) + Uses(r, calls[|calls| - 1])
  }

  function WrittenBy(calls: seq<nat>): nat {
    if calls == [] then 0 else WrittenBy(calls[..|calls| - 1]) + calls[|calls| - 1]
  }

  lemma {:induction false} RunsInStep(r: Rate, calls: seq<nat>)
    requires forall n :: n in calls ==> Whole(r, n)
    ensures InStep(r, ReadBy(r, calls), WrittenBy(calls))
  {
    if calls != [] {
      RunsInStep(r, calls[..|calls| - 1]);
      CallKeepsStep(r, ReadBy(r, calls[..|calls| - 1]), WrittenBy(calls[..|calls| - 1]), calls[|calls| - 1]);
    }
  }

  /** Over any history of calls, a tag on any item read lands among the items that the one call which
      consumed it has written; it is added ahead of the write pointer, before its item is published.
      Only on the first item of a call can it land one item too early, by rounding. */
  lemma {:induction false} TagsLandInTheirCall(r: Rate, calls: seq<nat>, land: nat -> nat, offset: nat) returns (k: nat)
    requires (forall n :: n in calls ==> Whole(r, n)) && Estimates(r, land) && offset < ReadBy(r, calls)
    ensures k < |calls| && ReadBy(r, calls[..k]) <= offset < ReadBy(r, calls[..k + 1])
    ensures WrittenBy(calls[..k]) <= land(offset) + 1 && land(offset) < WrittenBy(calls[..k + 1])
    ensures land(offset) < WrittenBy(calls[..k]) <==>
            offset == ReadBy(r, calls[..k]) && land(offset) + 1 == WrittenBy(calls[..k])
    decreases |calls|
  {
    var m := |calls| - 1;
    if offset < ReadBy(r, calls[..m]) {
      k := TagsLandInTheirCall(r, calls[..m], land, offset);
      assert calls[..m][..k] == calls[..k] && calls[..m][..k + 1] == calls[..k + 1];
    } else {
      k := m;
      assert calls[..k + 1] == calls;
      RunsInStep(r, calls[..m]);
      TagLands(r, ReadBy(r, calls[..m]), WrittenBy(calls[..m]), calls[m], offset, land(offset));
    }
  }

  /** Tags keep their order. */
  lemma OrderKept(r: Rate, land: nat -> nat, a: nat, b: nat)
    requires Estimates(r, land) && a <= b
    ensures land(a) <= land(b)
  {
    assert EstimatedAt(r, a, land(a)) && EstimatedAt(r, b, land(b));
    match r {
      case Sync =>
      case Decimator(factor) =>
        if a < b {
          QuotientsKeepOrder(a, b, factor, land(a), land(b));
        }
      case Interpolator(factor) => Ordered(a, b, factor);
    }
  }

  lemma QuotientsKeepOrder(a: nat, b: nat, d: Pos, y: nat, z: nat)
    requires a < b && EstimatedAt(Decimator(d), a, y) && EstimatedAt(Decimator(d), b, z)
    ensures y <= z
  {
    Quotient(a, d);
    Divides(b, d, a / d);
    if z < b / d && b / d <= a / d {
      assert b == b / d * d + b % d;
    }
  }

  // ---- The code ----

  /** An input of the block and the window of it that the work call consumed. */
  datatype Window<!T> = Window(input: Buffer<T>, start: nat, end: nat) {
    ghost function Tags(id: int): seq<Tag>
      reads input
    {
      InRange(Visible(input.itemTags, id), start, end)
    }
  }

  /** The tags of each window, as the block sees them. */
  ghost function WindowTags<T>(ins: seq<Window<T>>, id: int): (r: seq<seq<Tag>>)
    reads set w | w in ins :: w.input
    ensures |r| == |ins| && forall i :: 0 <= i < |ins| ==> r[i] == ins[i].Tags(id)
  {
    seq(|ins|, i requires 0 <= i < |ins| reads set w | w in ins :: w.input => ins[i].Tags(id))
  }

  /** The tags of all windows, one input after the other, each at its place on the outputs. */
  function Gathered(windows: seq<seq<Tag>>, scale: Scale): seq<Item> {
    if windows == [] then []
    else Gathered(windows[..|windows| - 1], scale) + CarriedAll(windows[|windows| - 1], scale)
  }

  // ---- What is added, tag by tag ----

  /** An item on an output stands for a tag: the same key, value and source, at the place where the tag
      lands, and deleted for nobody. */
  ghost predicate StandsFor(x: Item, t: Tag, land: nat -> nat) {
    && x.tag.key == t.key && x.tag.value == t.value && x.tag.srcid == t.srcid
    && x.tag.offset == land(t.offset) && x.hidden == []
  }

  /** A list has grown by one item for each tag that is due, in order. */
  ghost predicate Grown(before: seq<Item>, after: seq<Item>, due: seq<Tag>, land: nat -> nat) {
    && |after| == |before| + |due| && before <= after
    && forall k :: 0 <= k < |due| ==> StandsFor(after[|before| + k], due[k], land)
  }

  /** The tags of all windows, one after the other. */
  function Together(windows: seq<seq<Tag>>): seq<Tag> {
    if windows == [] then [] else Together(windows[..|windows| - 1]) + windows[|windows| - 1]
  }

  lemma {:induction false} GatheredStand(windows: seq<seq<Tag>>, scale: Scale)
    ensures |Gathered(windows, scale)| == |Together(windows)|
    ensures forall k :: 0 <= k < |Together(windows)| ==>
              StandsFor(Gathered(windows, scale)[k], Together(windows)[k], scale.land)
  {
    if windows != [] {
      GatheredStand(windows[..|windows| - 1], scale);
    }
  }

  lemma GrownBy(before: seq<Item>, windows: seq<seq<Tag>>, scale: Scale)
    ensures Grown(before, before + Gathered(windows, scale), Together(windows), scale.land)
  {
    GatheredStand(windows, scale);
  }

  ghost predicate IsDue(x: Item, id: int, start: nat, end: nat) {
    start <= x.tag.offset < end && id !in x.hidden
  }

  /** These are the places of the items that are due, in order, and of no others. */
  ghost predicate Places(items: seq<Item>, id: int, start: nat, end: nat, at: seq<nat>) {
    && (forall k :: 0 <= k < |at| ==> at[k] < |items| && IsDue(items[at[k]], id, start, end))
    && (forall j, k :: 0 <= j < k < |at| ==> at[j] < at[k])
    && forall i :: 0 <= i < |items| && IsDue(items[i], id, start, end) ==> i in at
  }

  ghost predicate TagsAt(items: seq<Item>, at: seq<nat>, tags: seq<Tag>) {
    |tags| == |at| && forall k :: 0 <= k < |at| ==> at[k] < |items| && items[at[k]].tag == tags[k]
  }

  /** The tags due from one window are those of the items there that are not hidden from the block, each of
      them once and in order. */
  lemma {:induction false} DueTags(items: seq<Item>, id: int, start: nat, end: nat) returns (at: seq<nat>)
    ensures Places(items, id, start, end, at) && TagsAt(items, at, InRange(Visible(items, id), start, end))
  {
    if items == [] {
      at := [];
    } else {
      var n := |items| - 1;
      var first := DueTags(items[..n], id, start, end);
      assert items == items[..n] + [items[n]];
      at := DueTagsMore(items[..n], items[n], id, start, end, first);
    }
  }

  lemma DueTagsMore(items: seq<Item>, x: Item, id: int, start: nat, end: nat, first: seq<nat>) returns (at: seq<nat>)
    requires Places(items, id, start, end, first) && TagsAt(items, first, InRange(Visible(items, id), start, end))
    ensures Places(items + [x], id, start, end, at)
    ensures TagsAt(items + [x], at, InRange(Visible(items + [x], id), start, end))
  {
    OneMoreDue(items, x, id, start, end);
    OneMorePlace(items, x, id, start, end, first);
    at := if IsDue(x, id, start, end) then first + [|items|] else first;
    OneMoreTag(items, x, first, InRange(Visible(items, id), start, end));
  }

  lemma OneMoreTag(items: seq<Item>, x: Item, at: seq<nat>, tags: seq<Tag>)
    requires TagsAt(items, at, tags)
    ensures TagsAt(items + [x], at, tags + []) && TagsAt(items + [x], at + [|items|], tags + [x.tag])
  {
    assert tags + [] == tags;
  }

  lemma OneMoreDue(items: seq<Item>, x: Item, id: int, start: nat, end: nat)
    ensures InRange(Visible(items + [x], id), start, end) ==
            InRange(Visible(items, id), start, end) + if IsDue(x, id, start, end) then [x.tag] else []
  {
    VisibleConcat(items, [x], id);
    InRangeConcat(Visible(items, id), Visible([x], id), start, end);
    assert [x][1..] == [];
    assert Visible([x], id) == if id in x.hidden then [] else [x.tag];
  }

  lemma OneMorePlace(items: seq<Item>, x: Item, id: int, start: nat, end: nat, at: seq<nat>)
    requires Places(items, id, start, end, at)
    ensures Places(items + [x], id, start, end, if IsDue(x, id, start, end) then at + [|items|] else at)
  {
    var more, all := at + [|items|], items + [x];
    forall i | 0 <= i < |all| && IsDue(all[i], id, start, end)
      ensures i in if IsDue(x, id, start, end) then more else at
    {
      InOrLast(at, |items|, i);
      assert i < |items| ==> all[i] == items[i];
    }
  }

  lemma InOrLast(at: seq<nat>, n: nat, i: nat)
    ensures i in at + [n] <==> i in at || i == n
  {
  }

  /** After a call of a block of fixed rate in step, what is added stands on items that the call wrote; or one
      item before them, exactly where the tag is on the first item read and the product is rounded below. */
  lemma LandInCall(r: Rate, read: nat, written: nat, n: nat, land: nat -> nat, before: seq<Item>, after: seq<Item>,
                   due: seq<Tag>)
    requires InStep(r, read, written) && Whole(r, n) && Estimates(r, land) && Grown(before, after, due, land)
    requires forall t :: t in due ==> read <= t.offset < read + Uses(r, n)
    ensures forall i :: |before| <= i < |after| ==>
              && written <= after[i].tag.offset + 1 && after[i].tag.offset < written + n
              && (after[i].tag.offset < written <==> due[i - |before|].offset == read && land(read) + 1 == written)
  {
    forall i | |before| <= i < |after|
      ensures written <= after[i].tag.offset + 1 && after[i].tag.offset < written + n
      ensures after[i].tag.offset < written <==> due[i - |before|].offset == read && land(read) + 1 == written
    {
      var t := due[i - |before|];
      assert t in due && StandsFor(after[|before| + (i - |before|)], t, land);
      assert EstimatedAt(r, t.offset, land(t.offset));
      TagLands(r, read, written, n, t.offset, land(t.offset));
    }
  }

  lemma {:induction false} TogetherWithin(windows: seq<seq<Tag>>, from: nat, to: nat)
    requires forall i, t :: 0 <= i < |windows| && t in windows[i] ==> from <= t.offset < to
    ensures forall t :: t in Together(windows) ==> from <= t.offset < to
  {
    if windows != [] {
      var n := |windows| - 1;
      assert forall i, t :: 0 <= i < n && t in windows[..n][i] ==> t in windows[i];
      TogetherWithin(windows[..n], from, to);
    }
  }

  ghost predicate Apart<T>(ins: seq<Window<T>>, outs: seq<Buffer<T>>) {
    && (forall i, j :: 0 <= i < j < |outs| ==> outs[i] != outs[j])
    && forall i :: 0 <= i < |ins| ==> ins[i].input !in outs
  }

  /** The tag lists of the outputs. */
  ghost function TagsOf<T>(outs: seq<Buffer<T>>): (r: seq<seq<Item>>)
    reads outs
    ensures |r| == |outs| && forall o :: 0 <= o < |outs| ==> r[o] == outs[o].itemTags
  {
    seq(|outs|, o requires 0 <= o < |outs| reads outs => outs[o].itemTags)
  }

  /** Nothing but the tag lists has changed. */
  twostate predicate OnlyTags<T>(outs: seq<Buffer<T>>)
    reads outs
  {
    forall o :: 0 <= o < |outs| ==>
      && outs[o].stream == old(outs[o].stream) && outs[o].readers == old(outs[o].readers)
      && outs[o].writeIndex == old(outs[o].writeIndex) && outs[o].absWriteOffset == old(outs[o].absWriteOffset)
      && outs[o].lastMinItemsRead == old(outs[o].lastMinItemsRead)
  }

  /** The same items behind each list. */
  function Extended(lists: seq<seq<Item>>, items: seq<Item>): (r: seq<seq<Item>>)
    ensures |r| == |lists|
  {
    seq(|lists|, o requires 0 <= o < |lists| => lists[o] + items)
  }

  lemma ExtendedTwice(lists: seq<seq<Item>>, a: seq<Item>, b: seq<Item>)
    ensures Extended(Extended(lists, a), b) == Extended(lists, a + b)
  {
    forall o | 0 <= o < |lists|
      ensures Extended(Extended(lists, a), b)[o] == Extended(lists, a + b)[o]
    {
      assert (lists[o] + a) + b == lists[o] + (a + b);
    }
  }

  lemma ExtendedByNothing(lists: seq<seq<Item>>)
    ensures Extended(lists, []) == lists
  {
    assert forall o :: 0 <= o < |lists| ==> lists[o] + [] == lists[o];
  }

  method AddToEach<T>(t: Tag, outs: seq<Buffer<T>>)
    requires Apart([], outs)
    modifies outs
    ensures TagsOf(outs) == Extended(old(TagsOf(outs)), [Item(t, [])]) && OnlyTags(outs)
  {
    for o: int := 0 to |outs|
      invariant OnlyTags(outs)
      invariant forall k :: 0 <= k < |outs| ==>
                  outs[k].itemTags == old(outs[k].itemTags) + if k < o then [Item(t, [])] else []
    {
      outs[o].AddItemTag(t);
    }
  }

  /** Some tags to every output, tag by tag. */
  method AddToAll<T>(tags: seq<Tag>, outs: seq<Buffer<T>>, scale: Scale)
    requires ScaleOk(scale) && Apart([], outs)
    modifies outs
    ensures TagsOf(outs) == Extended(old(TagsOf(outs)), CarriedAll(tags, scale)) && OnlyTags(outs)
  {
    ghost var all: seq<Item> := CarriedAll(tags, scale);
    ghost var before := TagsOf(outs);
    ExtendedByNothing(before);
    for i := 0 to |tags|
      invariant TagsOf(outs) == Extended(before, all[..i]) && OnlyTags(outs)
    {
      ExtendedTwice(before, all[..i], [all[i]]);
      assert all[..i + 1] == all[..i] + [all[i]];
      AddToEach(if scale.unit then tags[i] else tags[i].(offset := scale.land(tags[i].offset)), outs);
    }
    assert all[..|tags|] == all;
  }

  /** Tags of every input go to every output. */
  method AllToAllTags<T>(ins: seq<Window<T>>, outs: seq<Buffer<T>>, scale: Scale, id: int)
    requires ScaleOk(scale) && Apart(ins, outs)
    modifies outs
    ensures TagsOf(outs) == Extended(old(TagsOf(outs)), Gathered(old(WindowTags(ins, id)), scale)) && OnlyTags(outs)
  {
    ghost var before, windows := TagsOf(outs), WindowTags(ins, id);
    ExtendedByNothing(before);
    for i := 0 to |ins|
      invariant TagsOf(outs) == Extended(before, Gathered(windows[..i], scale)) && OnlyTags(outs)
      invariant forall k :: 0 <= k < |ins| ==> ins[k].Tags(id) == windows[k]
    {
      OneInput(ins, i, outs, scale, id, before, windows);
    }
    assert windows[..|ins|] == windows;
  }

  method OneInput<T>(ins: seq<Window<T>>, i: nat, outs: seq<Buffer<T>>, scale: Scale, id: int,
                     ghost before: seq<seq<Item>>, ghost windows: seq<seq<Tag>>)
    requires ScaleOk(scale) && Apart(ins, outs) && i < |ins| == |windows| && ins[i].Tags(id) == windows[i]
    requires TagsOf(outs) == Extended(before, Gathered(windows[..i], scale))
    modifies outs
    ensures TagsOf(outs) == Extended(before, Gathered(windows[..i + 1], scale)) && OnlyTags(outs)
  {
    var rtags := ins[i].input.GetTagsInRange(ins[i].start, ins[i].end, id);
    assert windows[..i + 1][..i] == windows[..i];
    ExtendedTwice(before, Gathered(windows[..i], scale), CarriedAll(rtags, scale));
    AddToAll(rtags, outs, scale);
  }

  /** Tags of each input go to the output of the same number. */
  method OneToOneTags<T>(ins: seq<Window<T>>, outs: seq<Buffer<T>>, scale: Scale, id: int)
    requires Apart(ins, outs) && |ins| == |outs|
    modifies outs
    ensures OnlyTags(outs)
    ensures forall o :: 0 <= o < |outs| ==>
              outs[o].itemTags == old(outs[o].itemTags) + CarriedAll(old(ins[o].Tags(id)), scale)
  {
    for i := 0 to |ins|
      invariant OnlyTags(outs)
      invariant forall o :: 0 <= o < |outs| ==>
                  outs[o].itemTags == old(outs[o].itemTags) +
                                      if o < i then CarriedAll(old(ins[o].Tags(id)), scale) else []
    {
      var rtags := ins[i].input.GetTagsInRange(ins[i].start, ins[i].end, id);
      OneOutput(rtags, outs[i], scale);
    }
  }

  method OneOutput<T>(rtags: seq<Tag>, output: Buffer<T>, scale: Scale)
    modifies output`itemTags
    ensures output.itemTags == old(output.itemTags) + CarriedAll(rtags, scale)
  {
    ghost var all := CarriedAll(rtags, scale);
    for k := 0 to |rtags|
      invariant output.itemTags == old(output.itemTags) + all[..k]
    {
      output.AddItemTag(rtags[k].(offset := scale.land(rtags[k].offset)));
      assert all[..k + 1] == all[..k] + [all[k]];
    }
    assert all[..|rtags|] == all;
  }

  /** Moves the tags of the consumed windows downstream. A sink has nowhere to move them; with the
      one-to-one policy the numbers of inputs and outputs must agree, or the block is done for. */
  method PropagateTags<T>(policy: Policy, ins: seq<Window<T>>, outs: seq<Buffer<T>>, scale: Scale, id: int)
    returns (ok: bool)
    requires ScaleOk(scale) && Apart(ins, outs)
    modifies outs
    ensures OnlyTags(outs)
    ensures !ok <==> policy == OneToOne && outs != [] && |ins| != |outs|
    ensures policy == AllToAll ==>
              TagsOf(outs) == Extended(old(TagsOf(outs)), Gathered(old(WindowTags(ins, id)), scale))
    ensures policy == OneToOne && ok ==> forall o :: 0 <= o < |outs| ==>
              outs[o].itemTags == old(outs[o].itemTags) + CarriedAll(old(ins[o].Tags(id)), scale)
    ensures policy == DontPropagate || !ok ==> TagsOf(outs) == old(TagsOf(outs))
    ensures policy == AllToAll ==> forall o :: 0 <= o < |outs| ==>
              Grown(old(outs[o].itemTags), outs[o].itemTags, Together(old(WindowTags(ins, id))), scale.land)
    ensures policy == OneToOne && ok ==> forall o :: 0 <= o < |outs| ==>
              Grown(old(outs[o].itemTags), outs[o].itemTags, old(ins[o].Tags(id)), scale.land)
  {
    ghost var before, windows := TagsOf(outs), WindowTags(ins, id);
    ok := true;
    if outs == [] {
      return;
    }
    match policy {
      case DontPropagate =>
      case AllToAll =>
        AllToAllTags(ins, outs, scale, id);
        forall o | 0 <= o < |outs|
          ensures Grown(before[o], outs[o].itemTags, Together(windows), scale.land)
        {
          GrownBy(before[o], windows, scale);
          assert outs[o].itemTags == TagsOf(outs)[o];
        }
      case OneToOne =>
        if |ins| == |outs| {
          OneToOneTags(ins, outs, scale, id);
        } else {
          ok := false;
        }
    }
  }

  /** What the executor does after a call of a block of fixed rate that was in step: whatever it adds to an
      output, it adds on items of that call, ahead of the write pointer, with the one exception. */
  method PropagateCall<T>(policy: Policy, ins: seq<Window<T>>, outs: seq<Buffer<T>>, scale: Scale, id: int,
                          ghost r: Rate, ghost read: nat, ghost written: nat, ghost n: nat)
    returns (ok: bool)
    requires ScaleOk(scale) && Apart(ins, outs)
    requires InStep(r, read, written) && Whole(r, n) && Estimates(r, scale.land)
    requires forall i :: 0 <= i < |ins| ==> ins[i].start == read && ins[i].end == read + Uses(r, n)
    modifies outs
    ensures OnlyTags(outs) && forall o :: 0 <= o < |outs| ==> old(outs[o].itemTags) <= outs[o].itemTags
    ensures forall o, i :: 0 <= o < |outs| && |old(outs[o].itemTags)| <= i < |outs[o].itemTags| ==>
              written <= outs[o].itemTags[i].tag.offset + 1 && outs[o].itemTags[i].tag.offset < written + n
  {
    ghost var windows := WindowTags(ins, id);
    TogetherWithin(windows, read, read + Uses(r, n));
    ok := PropagateTags(policy, ins, outs, scale, id);
    forall o | 0 <= o < |outs| && ok && policy != DontPropagate
      ensures forall i :: |old(outs[o].itemTags)| <= i < |outs[o].itemTags| ==>
                written <= outs[o].itemTags[i].tag.offset + 1 && outs[o].itemTags[i].tag.offset < written + n
    {
      LandInCall(r, read, written, n, scale.land, old(outs[o].itemTags), outs[o].itemTags,
                 if policy == AllToAll then Together(windows) else windows[o]);
    }
    forall o | 0 <= o < |outs| && (!ok || policy == DontPropagate)
      ensures outs[o].itemTags == old(outs[o].itemTags)
    {
      assert outs[o].itemTags == TagsOf(outs)[o];
    }
  }
}
