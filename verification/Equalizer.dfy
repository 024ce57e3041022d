/** A machine that cuts any chunk of samples into field-sync, segment-sync and data pieces, whatever
    the filter is that it drives. */
module Segmenter {

  const SEGMENT: nat := 832
  const SYMBOLS_PER_FIELD: nat := 313 * 832

  /** What matters of a sample's tag: whether a field sync of either kind starts there. */
  datatype Tag = Plain | FieldSync1 | FieldSync2

  datatype Lock = Lock(locked: bool, offset: nat, field: nat)

  /** What a sample is: nothing special, or a place in a segment sync or a field sync. */
  datatype Role = Data | InSegmentSync(offset: nat) | InFieldSync(offset: nat, field: nat)

  /** A filter with state T over windows W: what it puts out, and how its state changes. */
  datatype Filter<!T, !W> = Filter(out: (T, W) -> real, learn: (Role, T, W) -> T)

  // ---- One sample at a time ----

  /** Where a field sync is due. */
  predicate AtBoundary(offset: nat) { offset == 0 || offset == SYMBOLS_PER_FIELD }

  lemma BoundaryIsMultiple(offset: nat)
    requires offset <= SYMBOLS_PER_FIELD
    ensures AtBoundary(offset) <==> offset % SYMBOLS_PER_FIELD == 0
  {
  }

  function Kind(tag: Tag): nat { if tag == FieldSync2 then 1 else 0 }

  function RoleOf(l: Lock, tag: Tag): Role {
    if tag != Plain && (!l.locked || AtBoundary(l.offset)) then InFieldSync(0, Kind(tag))
    else if !l.locked || AtBoundary(l.offset) then Data
    else if l.offset < SEGMENT then InFieldSync(l.offset, l.field)
    else if l.offset % SEGMENT < 4 then InSegmentSync(l.offset % SEGMENT)
    else Data
  }

  function LockAfter(l: Lock, tag: Tag): Lock {
    if tag != Plain && (!l.locked || AtBoundary(l.offset)) then Lock(true, 1, Kind(tag))
    else if !l.locked then l
    else if AtBoundary(l.offset) then Lock(false, 0, l.field)
    else Lock(true, l.offset + 1, l.field)
  }

  /** Not in the middle of a field. */
  predicate Idle(l: Lock) { !l.locked || AtBoundary(l.offset) }

  /** The segmenter and the filter, and the roles and outputs of the samples so far. */
  datatype Progress<T> = Progress(lock: Lock, state: T, roles: seq<Role>, outs: seq<real>)

  function Advance<T, W>(f: Filter<T, W>, p: Progress<T>, tag: Tag, w: W): Progress<T> {
    var role := RoleOf(p.lock, tag);
    Progress(LockAfter(p.lock, tag), f.learn(role, p.state, w), p.roles + [role], p.outs + [f.out(p.state, w)])
  }

  /** After the first k samples. */
  function Upto<T, W>(f: Filter<T, W>, p: Progress<T>, tags: seq<Tag>, ws: seq<W>, k: nat): Progress<T>
    requires k <= |tags| == |ws|
  {
    if k == 0 then p else Advance(f, Upto(f, p, tags, ws, k - 1), tags[k - 1], ws[k - 1])
  }

  lemma UptoLearns<T, W>(f: Filter<T, W>, p: Progress<T>, tags: seq<Tag>, ws: seq<W>, k: nat)
    requires k < |tags| == |ws|
    ensures var q := Upto(f, p, tags, ws, k);
            Upto(f, p, tags, ws, k + 1).state == f.learn(RoleOf(q.lock, tags[k]), q.state, ws[k])
  {
  }

  /** A quantity summed over the first k samples, each seen as what it is taken for. */
  function Total<T, W>(f: Filter<T, W>, p: Progress<T>, tags: seq<Tag>, ws: seq<W>, k: nat,
                       g: (Role, T, W) -> real): real
    requires k <= |tags| == |ws|
  {
    if k == 0 then 0.0
    else
      var q := Upto(f, p, tags, ws, k - 1);
      Total(f, p, tags, ws, k - 1, g) + g(RoleOf(q.lock, tags[k - 1]), q.state, ws[k - 1])
  }

  /** One sample takes g off d. */
  ghost predicate Takes<T(!new), W(!new)>(f: Filter<T, W>, role: Role, w: W, d: T -> real, g: (Role, T, W) -> real) {
    forall t: T :: d(f.learn(role, t, w)) == d(t) - g(role, t, w)
  }

  ghost predicate TakesAt<T(!new), W(!new)>(f: Filter<T, W>, p: Progress<T>, tags: seq<Tag>, ws: seq<W>, j: nat,
                                            d: T -> real, g: (Role, T, W) -> real)
    requires j < |tags| == |ws|
  {
    Takes(f, RoleOf(Upto(f, p, tags, ws, j).lock, tags[j]), ws[j], d, g)
  }

  /** What each sample takes off, all of them take off together. */
  lemma {:induction false} TotalTaken<T(!new), W(!new)>(f: Filter<T, W>, p: Progress<T>, tags: seq<Tag>, ws: seq<W>,
                                                        k: nat, d: T -> real, g: (Role, T, W) -> real)
    requires k <= |tags| == |ws| && forall j :: 0 <= j < k ==> TakesAt(f, p, tags, ws, j, d, g)
    ensures d(Upto(f, p, tags, ws, k).state) == d(p.state) - Total(f, p, tags, ws, k, g)
    decreases k
  {
    if k > 0 {
      TotalTaken(f, p, tags, ws, k - 1, d, g);
      OneTaken(f, p, tags, ws, k - 1, d, g, Upto(f, p, tags, ws, k - 1));
    }
  }

  lemma OneTaken<T(!new), W(!new)>(f: Filter<T, W>, p: Progress<T>, tags: seq<Tag>, ws: seq<W>, k: nat, d: T -> real,
                                   g: (Role, T, W) -> real, q: Progress<T>)
    requires k < |tags| == |ws| && TakesAt(f, p, tags, ws, k, d, g) && q == Upto(f, p, tags, ws, k)
    ensures d(Upto(f, p, tags, ws, k + 1).state) == d(q.state) - g(RoleOf(q.lock, tags[k]), q.state, ws[k])
    ensures Total(f, p, tags, ws, k + 1, g) ==
            Total(f, p, tags, ws, k, g) + g(RoleOf(q.lock, tags[k]), q.state, ws[k])
  {
    UptoLearns(f, p, tags, ws, k);
  }

  /** Nothing is taken off where no sample takes anything. */
  lemma {:induction false} TotalNotNegative<T(!new), W(!new)>(f: Filter<T, W>, p: Progress<T>, tags: seq<Tag>,
                                                              ws: seq<W>, k: nat, g: (Role, T, W) -> real)
    requires k <= |tags| == |ws| && forall j, role: Role, t: T :: 0 <= j < k ==> g(role, t, ws[j]) >= 0.0
    ensures Total(f, p, tags, ws, k, g) >= 0.0
    decreases k
  {
    if k > 0 {
      TotalNotNegative(f, p, tags, ws, k - 1, g);
    }
  }

  /** Splitting a stream makes no difference: the second part goes on where the first one ended. */
  lemma {:induction false} Chunks<T, W>(f: Filter<T, W>, p: Progress<T>, tags: seq<Tag>, ws: seq<W>, k: nat, m: nat)
    requires k + m <= |tags| == |ws|
    ensures Upto(f, p, tags, ws, k + m) == Upto(f, Upto(f, p, tags, ws, k), tags[k..], ws[k..], m)
    decreases m
  {
    if m > 0 {
      Chunks(f, p, tags, ws, k, m - 1);
    }
  }

  /** What came before a chunk only stays in front of what the chunk adds. */
  lemma {:induction false} BeforeStays<T, W>(f: Filter<T, W>, p: Progress<T>, roles: seq<Role>, outs: seq<real>,
                                             tags: seq<Tag>, ws: seq<W>, k: nat)
    requires k <= |tags| == |ws|
    ensures var q := Upto(f, p, tags, ws, k);
            q.(roles := roles + q.roles, outs := outs + q.outs) ==
            Upto(f, p.(roles := roles + p.roles, outs := outs + p.outs), tags, ws, k)
    decreases k
  {
    if k > 0 {
      BeforeStays(f, p, roles, outs, tags, ws, k - 1);
      var q := Upto(f, p, tags, ws, k - 1);
      var role := RoleOf(q.lock, tags[k - 1]);
      assert roles + (q.roles + [role]) == roles + q.roles + [role];
      assert outs + (q.outs + [f.out(q.state, ws[k - 1])]) == outs + q.outs + [f.out(q.state, ws[k - 1])];
    }
  }

  lemma {:induction false} OnlyThePrefix<T, W>(f: Filter<T, W>, p: Progress<T>, tags: seq<Tag>, ws: seq<W>, k: nat,
                                               m: nat)
    requires m <= k <= |tags| == |ws|
    ensures Upto(f, p, tags, ws, m) == Upto(f, p, tags[..k], ws[..k], m)
    decreases m
  {
    if m > 0 {
      OnlyThePrefix(f, p, tags, ws, k, m - 1);
    }
  }

  lemma Afresh<T, W>(f: Filter<T, W>, p: Progress<T>, tags: seq<Tag>, ws: seq<W>, k: nat)
    requires k <= |tags| == |ws|
    ensures var q := Upto(f, Progress(p.lock, p.state, [], []), tags, ws, k);
            Upto(f, p, tags, ws, k) == q.(roles := p.roles + q.roles, outs := p.outs + q.outs)
  {
    BeforeStays(f, Progress(p.lock, p.state, [], []), p.roles, p.outs, tags, ws, k);
    assert p.roles + [] == p.roles && p.outs + [] == p.outs;
    assert p == Progress(p.lock, p.state, p.roles + [], p.outs + []);
  }

  lemma SplitAt<T, W>(f: Filter<T, W>, p: Progress<T>, tags: seq<Tag>, ws: seq<W>, k: nat, m: nat)
    requires k + m == |tags| == |ws|
    ensures var first := Upto(f, p, tags[..k], ws[..k], k);
            var second := Upto(f, Progress(first.lock, first.state, [], []), tags[k..], ws[k..], m);
            Upto(f, p, tags, ws, k + m) ==
            second.(roles := first.roles + second.roles, outs := first.outs + second.outs)
  {
    Chunks(f, p, tags, ws, k, m);
    OnlyThePrefix(f, p, tags, ws, k, k);
    Afresh(f, Upto(f, p, tags[..k], ws[..k], k), tags[k..], ws[k..], m);
  }

  /** Two calls on the two parts of a stream give the roles, the outputs and the final state of one
      call on the whole, wherever it is split. */
  lemma SplitAnywhere<T, W>(f: Filter<T, W>, lock: Lock, state: T, tags: seq<Tag>, ws: seq<W>, k: nat)
    requires k <= |tags| == |ws|
    ensures var first := Upto(f, Progress(lock, state, [], []), tags[..k], ws[..k], k);
            var second := Upto(f, Progress(first.lock, first.state, [], []), tags[k..], ws[k..], |tags| - k);
            Upto(f, Progress(lock, state, [], []), tags, ws, |tags|) ==
            Progress(second.lock, second.state, first.roles + second.roles, first.outs + second.outs)
  {
    SplitAt(f, Progress(lock, state, [], []), tags, ws, k, |tags| - k);
  }

  // ---- Fields ----

  /** The samples of a field: 313 segments of 832. */
  const FIELD: nat := 260416

  /** What the n-th sample of a field is: the first segment is the field sync, and each other one starts
      with a segment sync of four. */
  function PlaceInField(n: nat, first: Tag): Role {
    if n < 832 then InFieldSync(n, if first == FieldSync2 then 1 else 0)
    else if n % 832 < 4 then InSegmentSync(n % 832)
    else Data
  }

  /** A field sync starts wherever a whole number of fields has gone by. */
  ghost predicate WholeFields(tags: seq<Tag>) {
    forall j :: 0 <= j < |tags| && j % FIELD == 0 ==> tags[j] != Plain
  }

  function FieldRoles(tags: seq<Tag>, k: nat): (r: seq<Role>)
    requires k <= |tags|
    ensures |r| == k
  {
    seq(k, j requires 0 <= j < k => PlaceInField(j % FIELD, tags[j - j % FIELD]))
  }

  /** Before sample k of such a stream. */
  ghost predicate LockedAt(l: Lock, tags: seq<Tag>, k: nat)
    requires k <= |tags|
  {
    if k % FIELD == 0 then Idle(l) else l == Lock(true, k % FIELD, Kind(tags[k - k % FIELD]))
  }

  lemma NextInField(k: nat)
    ensures (k + 1) % FIELD == if k % FIELD == FIELD - 1 then 0 else k % FIELD + 1
    ensures k % FIELD < FIELD - 1 ==> (k + 1) - (k + 1) % FIELD == k - k % FIELD
  {
  }

  lemma LockedNext(l: Lock, tags: seq<Tag>, k: nat)
    requires k < |tags| && WholeFields(tags) && LockedAt(l, tags, k)
    ensures RoleOf(l, tags[k]) == PlaceInField(k % FIELD, tags[k - k % FIELD])
    ensures LockedAt(LockAfter(l, tags[k]), tags, k + 1)
  {
    NextInField(k);
  }

  /** Once a field sync is found, each sample of a stream of whole fields is taken for what it is,
      however many fields there are. */
  lemma {:induction false} FieldByField<T, W>(f: Filter<T, W>, p: Progress<T>, tags: seq<Tag>, ws: seq<W>, k: nat)
    requires k <= |tags| == |ws| && Idle(p.lock) && WholeFields(tags)
    ensures var q := Upto(f, p, tags, ws, k); q.roles == p.roles + FieldRoles(tags, k) && LockedAt(q.lock, tags, k)
    decreases k
  {
    if k > 0 {
      FieldByField(f, p, tags, ws, k - 1);
      OneInField(f, p.roles, tags, ws, k - 1, Upto(f, p, tags, ws, k - 1));
    }
  }

  lemma OneInField<T, W>(f: Filter<T, W>, before: seq<Role>, tags: seq<Tag>, ws: seq<W>, k: nat, p: Progress<T>)
    requires k < |tags| == |ws| && WholeFields(tags)
    requires p.roles == before + FieldRoles(tags, k) && LockedAt(p.lock, tags, k)
    ensures var q := Advance(f, p, tags[k], ws[k]);
            q.roles == before + FieldRoles(tags, k + 1) && LockedAt(q.lock, tags, k + 1)
  {
    LockedNext(p.lock, tags, k);
    FieldRolesMore(tags, k);
    assert before + FieldRoles(tags, k) + [RoleOf(p.lock, tags[k])] == before + FieldRoles(tags, k + 1);
  }

  lemma FieldRolesMore(tags: seq<Tag>, k: nat)
    requires k < |tags|
    ensures FieldRoles(tags, k + 1) == FieldRoles(tags, k) + [PlaceInField(k % FIELD, tags[k - k % FIELD])]
  {
  }

  /** Where none is found, samples are taken for data until there is one. */
  lemma {:induction false} DataUntilFound<T, W>(f: Filter<T, W>, p: Progress<T>, tags: seq<Tag>, ws: seq<W>, k: nat)
    requires k <= |tags| == |ws| && Idle(p.lock) && forall j :: 0 <= j < k ==> tags[j] == Plain
    ensures var q := Upto(f, p, tags, ws, k); q.roles == p.roles + seq(k, _ => Data) && Idle(q.lock)
    decreases k
  {
    if k > 0 {
      DataUntilFound(f, p, tags, ws, k - 1);
      assert seq(k, _ => Data) == seq(k - 1, _ => Data) + [Data];
    }
  }

  // ---- Pieces ----

  /** What one call of a sub-filter is told about its samples. */
  datatype Piece = Normal(n: nat) | SegmentSync(n: nat, offset: nat) | FieldSync(n: nat, offset: nat, field: nat)

  /** The ranges that the sub-filters are documented for. */
  ghost predicate InRange(x: Piece) {
    match x
    case Normal(n) => n >= 1
    case SegmentSync(n, offset) => 1 <= n <= 4 && offset + n <= 4
    case FieldSync(n, offset, field) => 1 <= n <= SEGMENT && offset + n <= SEGMENT && field < 2
  }

  function RolesOf(x: Piece): (r: seq<Role>)
    ensures |r| == x.n
  {
    match x
    case Normal(n) => seq(n, _ => Data)
    case SegmentSync(n, offset) => seq(n, i requires i >= 0 => InSegmentSync(offset + i))
    case FieldSync(n, offset, field) => seq(n, i requires i >= 0 => InFieldSync(offset + i, field))
  }

  /** The filter run over a stretch of samples with given roles. */
  function Run<T, W>(f: Filter<T, W>, state: T, roles: seq<Role>, ws: seq<W>): T
    requires |roles| == |ws|
  {
    if roles == [] then state
    else var n := |roles| - 1; f.learn(roles[n], Run(f, state, roles[..n], ws[..n]), ws[n])
  }

  function Outs<T, W>(f: Filter<T, W>, state: T, roles: seq<Role>, ws: seq<W>): (r: seq<real>)
    requires |roles| == |ws|
    ensures |r| == |ws|
  {
    if roles == [] then []
    else
      var n := |roles| - 1;
      Outs(f, state, roles[..n], ws[..n]) + [f.out(Run(f, state, roles[..n], ws[..n]), ws[n])]
  }

  /** The locks that a piece goes through, sample by sample. */
  ghost predicate Passes(x: Piece, tags: seq<Tag>, locks: seq<Lock>) {
    && |locks| == x.n + 1 && |tags| >= x.n
    && forall i :: 0 <= i < x.n ==>
         RoleOf(locks[i], tags[i]) == RolesOf(x)[i] && LockAfter(locks[i], tags[i]) == Next(locks, i)
  }

  ghost function Next(locks: seq<Lock>, i: nat): Lock
    requires i + 1 < |locks|
  {
    locks[i + 1]
  }

  lemma OneMore<T, W>(f: Filter<T, W>, state: T, roles: seq<Role>, ws: seq<W>, k: nat)
    requires k < |roles| == |ws|
    ensures Run(f, state, roles[..k + 1], ws[..k + 1]) == f.learn(roles[k], Run(f, state, roles[..k], ws[..k]), ws[k])
    ensures Outs(f, state, roles[..k + 1], ws[..k + 1]) ==
            Outs(f, state, roles[..k], ws[..k]) + [f.out(Run(f, state, roles[..k], ws[..k]), ws[k])]
  {
    assert roles[..k + 1][..k] == roles[..k] && ws[..k + 1][..k] == ws[..k];
  }

  function After<T, W>(f: Filter<T, W>, p: Progress<T>, roles: seq<Role>, ws: seq<W>, lock: Lock): Progress<T>
    requires |roles| == |ws|
  {
    Progress(lock, Run(f, p.state, roles, ws), p.roles + roles, p.outs + Outs(f, p.state, roles, ws))
  }

  lemma AfterOneMore<T, W>(f: Filter<T, W>, p: Progress<T>, roles: seq<Role>, ws: seq<W>, k: nat, l: Lock, tag: Tag)
    requires k < |roles| == |ws| && RoleOf(l, tag) == roles[k]
    ensures Advance(f, After(f, p, roles[..k], ws[..k], l), tag, ws[k]) ==
            After(f, p, roles[..k + 1], ws[..k + 1], LockAfter(l, tag))
  {
    OneMore(f, p.state, roles, ws, k);
    assert roles[..k + 1] == roles[..k] + [roles[k]];
  }

  /** A piece whose samples have the roles that it claims is what the sample-wise machine does. */
  lemma {:induction false} PieceRuns<T, W>(f: Filter<T, W>, p: Progress<T>, tags: seq<Tag>, ws: seq<W>, x: Piece,
                                           locks: seq<Lock>, k: nat)
    requires k <= x.n <= |tags| == |ws| && Passes(x, tags, locks) && locks[0] == p.lock
    ensures Upto(f, p, tags, ws, k) == After(f, p, RolesOf(x)[..k], ws[..k], locks[k])
    decreases k
  {
    if k > 0 {
      PieceRuns(f, p, tags, ws, x, locks, k - 1);
      assert Next(locks, k - 1) == locks[k];
      assert ws[..x.n][..k - 1] == ws[..k - 1] && ws[..x.n][..k] == ws[..k];
      AfterOneMore(f, p, RolesOf(x), ws[..x.n], k - 1, locks[k - 1], tags[k - 1]);
    } else {
      assert p.roles + [] == p.roles && p.outs + [] == p.outs;
    }
  }

  /** Finding a lock, or losing it, makes no difference to what the samples ahead are taken for. */
  lemma Relock<T, W>(f: Filter<T, W>, p: Progress<T>, l: Lock, tags: seq<Tag>, ws: seq<W>, m: nat)
    requires 0 < m <= |tags| == |ws|
    requires LockAfter(p.lock, tags[0]) == LockAfter(l, tags[0]) && RoleOf(p.lock, tags[0]) == RoleOf(l, tags[0])
    ensures Upto(f, p, tags, ws, m) == Upto(f, p.(lock := l), tags, ws, m)
  {
    var q := p.(lock := l);
    Chunks(f, p, tags, ws, 1, m - 1);
    Chunks(f, q, tags, ws, 1, m - 1);
    assert Upto(f, p, tags, ws, 0) == p && Upto(f, q, tags, ws, 0) == q;
  }

  // ---- Calls ----

  /** Where a field sync is due, the first tag is looked at even if there is no sample; it is the one
      that stands behind the chunk. */
  function Looked(l: Lock, beyond: Tag): Lock {
    if !(l.locked && AtBoundary(l.offset)) then l
    else if beyond == Plain then Lock(false, 0, l.field)
    else Lock(true, 0, Kind(beyond))
  }

  /** What one call on a chunk comes to. */
  function Call<T, W>(f: Filter<T, W>, lock: Lock, state: T, tags: seq<Tag>, ws: seq<W>, beyond: Tag): Progress<T>
    requires |tags| == |ws|
  {
    var lock' := if tags == [] then Looked(lock, beyond) else lock;
    Upto(f, Progress(lock', state, [], []), tags, ws, |tags|)
  }

  /** Neither is in the middle of a field, or they are the same. */
  predicate SameAhead(a: Lock, b: Lock) { a == b || (Idle(a) && Idle(b)) }

  /** Then the samples ahead are taken for the same. */
  lemma {:induction false} SameAheadRuns<T, W>(f: Filter<T, W>, p: Progress<T>, l: Lock, tags: seq<Tag>, ws: seq<W>,
                                               m: nat)
    requires m <= |tags| == |ws| && SameAhead(p.lock, l)
    ensures var q := Upto(f, p.(lock := l), tags, ws, m);
            SameAhead(Upto(f, p, tags, ws, m).lock, q.lock) && Upto(f, p, tags, ws, m).(lock := q.lock) == q
  {
    if m > 0 {
      SameAheadRuns(f, p, l, tags, ws, m - 1);
    }
  }

  lemma LookedAhead<T, W>(f: Filter<T, W>, p: Progress<T>, tags: seq<Tag>, ws: seq<W>)
    requires 0 < |tags| == |ws|
    ensures Upto(f, p.(lock := Looked(p.lock, tags[0])), tags, ws, |tags|) == Upto(f, p, tags, ws, |tags|)
  {
    Relock(f, p, Looked(p.lock, tags[0]), tags, ws, |tags|);
  }

  /** Two calls on the two parts of a chunk give what one call gives, wherever it is split; only an
      empty second part can leave another lock, and the samples ahead are then taken for the same. */
  lemma TwoCalls<T, W>(f: Filter<T, W>, lock: Lock, state: T, tags: seq<Tag>, ws: seq<W>, k: nat, beyond: Tag)
    requires k <= |tags| == |ws|
    ensures var first := Call(f, lock, state, tags[..k], ws[..k], (tags + [beyond])[k]);
            var second := Call(f, first.lock, first.state, tags[k..], ws[k..], beyond);
            var whole := Call(f, lock, state, tags, ws, beyond);
            && whole == Progress(whole.lock, second.state, first.roles + second.roles, first.outs + second.outs)
            && SameAhead(second.lock, whole.lock) && (k < |tags| ==> second.lock == whole.lock)
  {
    SplitAnywhere(f, lock, state, tags, ws, k);
    if k == 0 && tags != [] {
      LookedAhead(f, Progress(lock, state, [], []), tags, ws);
      assert tags[0..] == tags && ws[0..] == ws;
    }
  }

  lemma TwoCallsMake<T, W>(f: Filter<T, W>, lock: Lock, state: T, tags: seq<Tag>, ws: seq<W>, k: nat, beyond: Tag,
                           p: Progress<T>, q: Progress<T>)
    requires k <= |tags| == |ws|
    requires p == Call(f, lock, state, tags[..k], ws[..k], if k < |tags| then tags[k] else beyond)
    requires q == Call(f, p.lock, p.state, tags[k..], ws[k..], beyond)
    ensures var whole := Call(f, lock, state, tags, ws, beyond);
            && whole == Progress(whole.lock, q.state, p.roles + q.roles, p.outs + q.outs)
            && SameAhead(q.lock, whole.lock) && (k < |tags| ==> q.lock == whole.lock)
  {
    TwoCalls(f, lock, state, tags, ws, k, beyond);
  }

  /** Whether the first k samples of a stretch have been dealt with. */
  ghost predicate Done<T, W>(f: Filter<T, W>, state: T, roles: seq<Role>, ws: seq<W>, k: nat, now: T, outs: seq<real>)
    requires |roles| == |ws|
  {
    k <= |roles| && now == Run(f, state, roles[..k], ws[..k]) && outs == Outs(f, state, roles[..k], ws[..k])
  }

  lemma DoneOneMore<T, W>(f: Filter<T, W>, state: T, roles: seq<Role>, ws: seq<W>, k: nat, before: T, outs: seq<real>)
    requires k < |roles| == |ws| && Done(f, state, roles, ws, k, before, outs)
    ensures Done(f, state, roles, ws, k + 1, f.learn(roles[k], before, ws[k]), outs + [f.out(before, ws[k])])
  {
    OneMore(f, state, roles, ws, k);
  }

  /** What a branch of the machine has done: it has cut one piece off the samples ahead, passing
      through the given locks, and has run the filter over it. */
  ghost predicate Cut<T, W>(f: Filter<T, W>, tags: seq<Tag>, ws: seq<W>, x: Piece, locks: seq<Lock>,
                            was: Lock, now: Lock, state: T, stateNow: T, outs: seq<real>)
  {
    && 0 < x.n <= |tags| == |ws| && InRange(x)
    && Passes(x, tags, locks) && locks[0] == was && now == locks[x.n]
    && Done(f, state, RolesOf(x), ws[..x.n], x.n, stateNow, outs)
  }

  function AllRoles(pieces: seq<Piece>): seq<Role> {
    if pieces == [] then [] else AllRoles(pieces[..|pieces| - 1]) + RolesOf(pieces[|pieces| - 1])
  }

  lemma MoreRoles(pieces: seq<Piece>, x: Piece)
    ensures AllRoles(pieces + [x]) == AllRoles(pieces) + RolesOf(x)
  {
    assert (pieces + [x])[..|pieces|] == pieces;
  }

  lemma Associative(a: seq<Role>, b: seq<Role>, c: seq<Role>)
    ensures a + b + c == a + (b + c)
  {
  }

  lemma {:induction false} JoinRoles(a: seq<Piece>, b: seq<Piece>)
    ensures AllRoles(a + b) == AllRoles(a) + AllRoles(b)
    decreases |b|
  {
    if b == [] {
      assert a + b == a;
    } else {
      var n := |b| - 1;
      JoinRoles(a, b[..n]);
      assert b == b[..n] + [b[n]];
      JoinMore(a, b[..n], b[n]);
    }
  }

  lemma JoinMore(a: seq<Piece>, b: seq<Piece>, x: Piece)
    requires AllRoles(a + b) == AllRoles(a) + AllRoles(b)
    ensures AllRoles(a + (b + [x])) == AllRoles(a) + AllRoles(b + [x])
  {
    assert a + (b + [x]) == (a + b) + [x];
    MoreRoles(a + b, x);
    MoreRoles(b, x);
    Associative(AllRoles(a), AllRoles(b), RolesOf(x));
  }

  /** That is what the sample-wise machine does with these samples. */
  lemma CutRuns<T, W>(f: Filter<T, W>, p: Progress<T>, tags: seq<Tag>, ws: seq<W>, x: Piece, locks: seq<Lock>,
                      now: Lock, stateNow: T, outs: seq<real>)
    requires Cut(f, tags, ws, x, locks, p.lock, now, p.state, stateNow, outs)
    ensures Upto(f, p, tags, ws, x.n) == Progress(now, stateNow, p.roles + RolesOf(x), p.outs + outs)
  {
    PieceRuns(f, p, tags, ws, x, locks, x.n);
    assert RolesOf(x)[..x.n] == RolesOf(x) && ws[..x.n][..x.n] == ws[..x.n];
  }

  /** What is still to come, seen from a place further on. */
  lemma FurtherOn<T, W>(f: Filter<T, W>, p: Progress<T>, q: Progress<T>, tags: seq<Tag>, ws: seq<W>, pos: nat, n: nat)
    requires pos + n <= |tags| == |ws| && q == Upto(f, p, tags[pos..], ws[pos..], n)
    ensures ToCome(f, p, tags, ws, pos) == ToCome(f, q, tags, ws, pos + n)
  {
    Chunks(f, p, tags[pos..], ws[pos..], n, |tags| - pos - n);
    assert tags[pos..][n..] == tags[pos + n..] && ws[pos..][n..] == ws[pos + n..];
  }

  /** The end of the run, seen from a place in it. */
  ghost function ToCome<T, W>(f: Filter<T, W>, p: Progress<T>, tags: seq<Tag>, ws: seq<W>, pos: nat): Progress<T>
    requires pos <= |tags| == |ws|
  {
    Upto(f, p, tags[pos..], ws[pos..], |tags| - pos)
  }

  ghost predicate AllInRange(pieces: seq<Piece>) { forall x :: x in pieces ==> InRange(x) }

  // ---- Which pieces pass ----

  lemma UnlockedPasses(tags: seq<Tag>, l: Lock, n: nat)
    requires n <= |tags| && !l.locked && forall i :: 0 <= i < n ==> tags[i] == Plain
    ensures Passes(Normal(n), tags, seq(n + 1, _ => l))
  {
  }

  function Counting(l: Lock, n: nat): (r: seq<Lock>)
    ensures |r| == n + 1
  {
    seq(n + 1, i requires 0 <= i => Lock(true, l.offset + i, l.field))
  }

  lemma InSegment(offset: nat, i: nat)
    requires offset % SEGMENT + i < SEGMENT && offset < SYMBOLS_PER_FIELD
    ensures (offset + i) % SEGMENT == offset % SEGMENT + i
    ensures offset + i < SYMBOLS_PER_FIELD
  {
    var q, r := offset / SEGMENT, offset % SEGMENT;
    assert offset + i == SEGMENT * q + (r + i);
  }

  /** Clear of the field sync, the pieces keep within one segment. */
  lemma ClearPasses(tags: seq<Tag>, l: Lock, n: nat, x: Piece)
    requires l.locked && SEGMENT <= l.offset < SYMBOLS_PER_FIELD && n <= |tags| && l.offset % SEGMENT + n <= SEGMENT
    requires if l.offset % SEGMENT < 4 then x == SegmentSync(n, l.offset % SEGMENT) && l.offset % SEGMENT + n <= 4
             else x == Normal(n)
    ensures Passes(x, tags, Counting(l, n))
  {
    forall i | 0 <= i < n
      ensures RoleOf(Counting(l, n)[i], tags[i]) == RolesOf(x)[i]
              && LockAfter(Counting(l, n)[i], tags[i]) == Next(Counting(l, n), i)
    {
      InSegment(l.offset, i);
    }
  }

  lemma FieldPasses(tags: seq<Tag>, l: Lock, n: nat)
    requires l.locked && 0 < l.offset && l.offset + n <= SEGMENT && n <= |tags|
    ensures Passes(FieldSync(n, l.offset, l.field), tags, Counting(l, n))
  {
  }

  /** A field sync starts where one is due and the tag says so. */
  lemma FieldStartPasses(tags: seq<Tag>, l: Lock, n: nat)
    requires l.locked && AtBoundary(l.offset) && 0 < n <= SEGMENT && n <= |tags| && tags[0] != Plain
    ensures Passes(FieldSync(n, 0, Kind(tags[0])), tags, [l] + Counting(Lock(true, 1, Kind(tags[0])), n - 1))
  {
  }

  /** Which piece the machine cuts in lock, and where that leaves it. */
  ghost predicate Chosen(x: Piece, was: Lock, now: Lock, tags: seq<Tag>)
    requires tags != []
  {
    && 0 < x.n <= |tags| && InRange(x)
    && if AtBoundary(was.offset) then
         x == FieldSync(x.n, 0, Kind(tags[0])) && now == Lock(true, x.n, Kind(tags[0]))
       else
         && now == Lock(true, was.offset + x.n, was.field)
         && if was.offset < SEGMENT then x == FieldSync(x.n, was.offset, was.field)
            else if was.offset % SEGMENT < 4 then x == SegmentSync(x.n, was.offset % SEGMENT)
            else x == Normal(x.n) && was.offset % SEGMENT + x.n <= SEGMENT
  }

  lemma ChosenPasses(x: Piece, was: Lock, now: Lock, tags: seq<Tag>) returns (locks: seq<Lock>)
    requires tags != [] && was.locked && was.offset <= SYMBOLS_PER_FIELD && Chosen(x, was, now, tags)
    requires AtBoundary(was.offset) ==> tags[0] != Plain
    ensures Passes(x, tags, locks) && locks[0] == was && now == locks[x.n]
  {
    if AtBoundary(was.offset) {
      locks := [was] + Counting(Lock(true, 1, Kind(tags[0])), x.n - 1);
      FieldStartPasses(tags, was, x.n);
    } else {
      locks := Counting(was, x.n);
      if was.offset < SEGMENT {
        FieldPasses(tags, was, x.n);
      } else {
        ClearPasses(tags, was, x.n, x);
      }
    }
  }

  /** One piece of n samples, cut off as the machine cuts it, and the filter run over it. */
  ghost predicate PieceDone<T, W>(f: Filter<T, W>, x: Piece, n: nat, was: Lock, now: Lock, tags: seq<Tag>, ws: seq<W>,
                                  state: T, stateNow: T, outs: seq<real>)
    requires tags != [] && |tags| == |ws|
  {
    x.n == n && Chosen(x, was, now, tags) && Done(f, state, RolesOf(x), ws[..x.n], x.n, stateNow, outs)
  }

  /** That is what the sample-wise machine does with these samples. */
  lemma ChosenRuns<T, W>(f: Filter<T, W>, p: Progress<T>, tags: seq<Tag>, ws: seq<W>, x: Piece,
                         now: Lock, stateNow: T, outs: seq<real>)
    requires tags != [] && |ws| == |tags| && p.lock.locked && p.lock.offset <= SYMBOLS_PER_FIELD
             && Chosen(x, p.lock, now, tags)
    requires AtBoundary(p.lock.offset) ==> tags[0] != Plain
    requires Done(f, p.state, RolesOf(x), ws[..x.n], x.n, stateNow, outs)
    ensures Upto(f, p, tags, ws, x.n) == Progress(now, stateNow, p.roles + RolesOf(x), p.outs + outs)
  {
    var locks := ChosenPasses(x, p.lock, now, tags);
    CutRuns(f, p, tags, ws, x, locks, now, stateNow, outs);
  }

  lemma UnlockedRuns<T, W>(f: Filter<T, W>, p: Progress<T>, tags: seq<Tag>, ws: seq<W>, n: nat, stateNow: T,
                           outs: seq<real>)
    requires 0 < n <= |tags| == |ws| && !p.lock.locked && forall k :: 0 <= k < n ==> tags[k] == Plain
    requires Done(f, p.state, RolesOf(Normal(n)), ws[..n], n, stateNow, outs)
    ensures Upto(f, p, tags, ws, n) == Progress(p.lock, stateNow, p.roles + RolesOf(Normal(n)), p.outs + outs)
  {
    UnlockedPasses(tags, p.lock, n);
    CutRuns(f, p, tags, ws, Normal(n), seq(n + 1, _ => p.lock), p.lock, stateNow, outs);
  }
}

/** The least-mean-squares filter behind the segmenter. */
module EqualizerLms {
  import opened Segmenter

  const NTAPS: nat := 256
  const BETA: real := 0.00005
  /** 4 + 511 + 3 * 63 */
  const KNOWN_FIELD_SYNC_LENGTH: nat := 704

  type Taps = seq<real>

  /** The 256 samples from one on. */
  type Window = seq<real>

  function At(s: seq<real>, i: nat): real { if i < |s| then s[i] else 0.0 }

  function Dot(taps: Taps, w: Window, n: nat): real {
    if n == 0 then 0.0 else Dot(taps, w, n - 1) + At(taps, n - 1) * At(w, n - 1)
  }

  function Filtered(taps: Taps, w: Window): real { Dot(taps, w, NTAPS) }

  function Adapted(taps: Taps, w: Window, ideal: real): Taps {
    var e := Filtered(taps, w) - ideal;
    seq(NTAPS, i requires i >= 0 => At(taps, i) - BETA * e * At(w, i))
  }

  // ---- What adapting is for ----

  /** The sum of the squares of a window. */
  function Energy(w: Window): real { Dot(w, w, NTAPS) }

  /** Multiplying by a constant, of which sums need to know no more than that it is additive. */
  function By(c: real): real -> real { (x: real) => c * x }

  ghost predicate Adds(m: real -> real, x: real, y: real) { m(x + y) == m(x) + m(y) }

  lemma ByAdds(c: real, x: real, y: real)
    ensures Adds(By(c), x, y) && By(c)(0.0) == 0.0
  {
    assert c * (x + y) == c * x + c * y;
  }

  /** One product of a moved tap. */
  ghost predicate ProductMoved(t: Taps, t': Taps, w: Window, m: real -> real, i: nat) {
    At(t', i) * At(w, i) == At(t, i) * At(w, i) - m(At(w, i) * At(w, i)) && Adds(m, Dot(w, w, i), At(w, i) * At(w, i))
  }

  lemma {:induction false} DotMoved(t: Taps, t': Taps, w: Window, m: real -> real, n: nat)
    requires m(0.0) == 0.0 && forall i :: 0 <= i < n ==> ProductMoved(t, t', w, m, i)
    ensures Dot(t', w, n) == Dot(t, w, n) - m(Dot(w, w, n))
  {
    if n > 0 {
      DotMoved(t, t', w, m, n - 1);
      assert ProductMoved(t, t', w, m, n - 1);
    }
  }

  lemma ProductMoves(t: Taps, t': Taps, w: Window, g: real, i: nat)
    requires At(t', i) == At(t, i) - g * At(w, i)
    ensures ProductMoved(t, t', w, By(g), i)
  {
    ByAdds(g, Dot(w, w, i), At(w, i) * At(w, i));
    var a, x := At(t, i), At(w, i);
    assert (a - g * x) * x == a * x - g * (x * x);
  }

  lemma EachTapMoved(t: Taps, w: Window, ideal: real, i: nat)
    requires i < NTAPS
    ensures At(Adapted(t, w, ideal), i) == At(t, i) - 0.00005 * (Filtered(t, w) - ideal) * At(w, i)
  {
  }

  lemma AllTapsMoved(t: Taps, w: Window, ideal: real) returns (g: real, t': Taps)
    ensures g == 0.00005 * (Filtered(t, w) - ideal) && t' == Adapted(t, w, ideal)
    ensures forall i :: 0 <= i < NTAPS ==> At(t', i) == At(t, i) - g * At(w, i)
  {
    g, t' := 0.00005 * (Filtered(t, w) - ideal), Adapted(t, w, ideal);
    forall i | 0 <= i < NTAPS
      ensures At(t', i) == At(t, i) - g * At(w, i)
    {
      EachTapMoved(t, w, ideal, i);
    }
  }

  /** The error law: adapting multiplies the error on its own window by 1 - 0.00005 s, where s is the energy
      of the window. */
  lemma ErrorLaw(t: Taps, w: Window, ideal: real)
    ensures Filtered(Adapted(t, w, ideal), w) - ideal == (1.0 - 0.00005 * Energy(w)) * (Filtered(t, w) - ideal)
  {
    var g, t' := AllTapsMoved(t, w, ideal);
    ByAdds(g, 0.0, 0.0);
    forall i | 0 <= i < NTAPS
      ensures ProductMoved(t, t', w, By(g), i)
    {
      ProductMoves(t, t', w, g, i);
    }
    DotMoved(t, t', w, By(g), NTAPS);
    ErrorLeft(g, Energy(w), Filtered(t, w) - ideal);
  }

  lemma ErrorLeft(g: real, s: real, e: real)
    requires g == 0.00005 * e
    ensures e - g * s == (1.0 - 0.00005 * s) * e
  {
  }

  lemma Moved(t: Taps, t': Taps, w: Window, y: real, ideal: real)
    requires |t| == |t'| == |w| == NTAPS && t' == Adapted(t, w, ideal) && y == Filtered(t, w)
    ensures forall k :: 0 <= k < NTAPS ==> t'[k] == t[k] - 0.00005 * (y - ideal) * w[k]
    ensures Filtered(t', w) - ideal == (1.0 - 0.00005 * Energy(w)) * (y - ideal)
  {
    var g, moved := AllTapsMoved(t, w, ideal);
    forall k | 0 <= k < NTAPS
      ensures t'[k] == t[k] - g * w[k]
    {
      assert At(t', k) == t'[k] && At(t, k) == t[k] && At(w, k) == w[k];
    }
    ErrorLaw(t, w, ideal);
  }

  function Abs(x: real): real { if x < 0.0 then -x else x }

  /** So the error on that window becomes smaller as long as the energy is positive and below 40000. */
  lemma ErrorShrinks(t: Taps, w: Window, ideal: real)
    requires 0.0 < Energy(w) < 40000.0 && Filtered(t, w) != ideal
    ensures Abs(Filtered(Adapted(t, w, ideal), w) - ideal) < Abs(Filtered(t, w) - ideal)
  {
    ErrorLaw(t, w, ideal);
    Contracts(1.0 - 0.00005 * Energy(w), Filtered(t, w) - ideal);
  }

  lemma Contracts(c: real, e: real)
    requires -1.0 < c < 1.0 && e != 0.0
    ensures Abs(c * e) < Abs(e)
  {
    if e > 0.0 {
      assert (1.0 - c) * e > 0.0 && (1.0 + c) * e > 0.0;
    } else {
      assert (1.0 - c) * -e > 0.0 && (1.0 + c) * -e > 0.0;
    }
  }

  // ---- Sums ----

  function Sum(v: nat -> real, n: nat): real { if n == 0 then 0.0 else Sum(v, n - 1) + v(n - 1) }

  lemma {:induction false} SumSame(v: nat -> real, x: nat -> real, n: nat)
    requires forall i :: 0 <= i < n ==> v(i) == x(i)
    ensures Sum(v, n) == Sum(x, n)
  {
    if n > 0 {
      SumSame(v, x, n - 1);
    }
  }

  lemma {:induction false} SumLess(v: nat -> real, x: nat -> real, y: nat -> real, n: nat)
    requires forall i :: 0 <= i < n ==> v(i) == x(i) - y(i)
    ensures Sum(v, n) == Sum(x, n) - Sum(y, n)
  {
    if n > 0 {
      SumLess(v, x, y, n - 1);
    }
  }

  /** Summands that m takes apart. */
  ghost predicate SumsAdd(m: real -> real, v: nat -> real, i: nat) { Adds(m, Sum(v, i), v(i)) }

  /** Each summand has changed by h of one thing and q of another. */
  ghost predicate Changed(a: nat -> real, a': nat -> real, x: nat -> real, y: nat -> real, h: real -> real,
                          q: real -> real, i: nat)
  {
    a'(i) == a(i) - h(x(i)) + q(y(i)) && SumsAdd(h, x, i) && SumsAdd(q, y, i)
  }

  lemma {:induction false} SumChanged(a: nat -> real, a': nat -> real, x: nat -> real, y: nat -> real,
                                      h: real -> real, q: real -> real, n: nat)
    requires h(0.0) == 0.0 && q(0.0) == 0.0 && forall i :: 0 <= i < n ==> Changed(a, a', x, y, h, q, i)
    ensures Sum(a', n) == Sum(a, n) - h(Sum(x, n)) + q(Sum(y, n))
  {
    if n > 0 {
      SumChanged(a, a', x, y, h, q, n - 1);
      assert Changed(a, a', x, y, h, q, n - 1);
    }
  }

  function Products(t: Taps, w: Window): nat -> real { (i: nat) => At(t, i) * At(w, i) }

  lemma {:induction false} DotIsSum(t: Taps, w: Window, n: nat)
    ensures Dot(t, w, n) == Sum(Products(t, w), n)
  {
    if n > 0 {
      DotIsSum(t, w, n - 1);
    }
  }

  /** The squared distance between two sets of taps. */
  function Distance(t: Taps, u: Taps, n: nat): real { Sum(Squares(t, u), n) }

  function Squares(t: Taps, u: Taps): nat -> real { (i: nat) => (At(t, i) - At(u, i)) * (At(t, i) - At(u, i)) }

  function Differences(t: Taps, u: Taps, w: Window): nat -> real {
    (i: nat) => At(t, i) * At(w, i) - At(u, i) * At(w, i)
  }

  /** The change of one square of a difference of taps when t becomes t'. */
  ghost predicate SquareChanged(t: Taps, t': Taps, u: Taps, w: Window, h: real -> real, q: real -> real, i: nat) {
    Changed(Squares(t, u), Squares(t', u), Differences(t, u, w), Products(w, w), h, q, i)
  }

  ghost predicate SquaresChange(t: Taps, t': Taps, u: Taps, w: Window, h: real -> real, q: real -> real, n: nat) {
    forall i :: 0 <= i < n ==> SquareChanged(t, t', u, w, h, q, i)
  }

  lemma DistanceMoved(t: Taps, t': Taps, u: Taps, w: Window, h: real -> real, q: real -> real, n: nat)
    requires h(0.0) == 0.0 && q(0.0) == 0.0 && SquaresChange(t, t', u, w, h, q, n)
    ensures Distance(t', u, n) == Distance(t, u, n) - h(Dot(t, w, n) - Dot(u, w, n)) + q(Dot(w, w, n))
  {
    DifferenceIsSum(t, u, w, n);
    DotIsSum(w, w, n);
    SquaresChanged(t, t', u, w, h, q, n, Dot(t, w, n) - Dot(u, w, n), Dot(w, w, n));
  }

  lemma SquaresChanged(t: Taps, t': Taps, u: Taps, w: Window, h: real -> real, q: real -> real, n: nat,
                       difference: real, energy: real)
    requires h(0.0) == 0.0 && q(0.0) == 0.0 && SquaresChange(t, t', u, w, h, q, n)
    requires difference == Sum(Differences(t, u, w), n) && energy == Sum(Products(w, w), n)
    ensures Distance(t', u, n) == Distance(t, u, n) - h(difference) + q(energy)
  {
    forall i | 0 <= i < n
      ensures Changed(Squares(t, u), Squares(t', u), Differences(t, u, w), Products(w, w), h, q, i)
    {
      assert SquareChanged(t, t', u, w, h, q, i);
    }
    SumChanged(Squares(t, u), Squares(t', u), Differences(t, u, w), Products(w, w), h, q, n);
  }

  lemma DifferenceIsSum(t: Taps, u: Taps, w: Window, n: nat)
    ensures Sum(Differences(t, u, w), n) == Dot(t, w, n) - Dot(u, w, n)
  {
    DotIsSum(t, w, n);
    DotIsSum(u, w, n);
    SumLess(Differences(t, u, w), Products(t, w), Products(u, w), n);
  }

  lemma SquareMoves(t: Taps, t': Taps, u: Taps, w: Window, g: real, i: nat)
    requires At(t', i) == At(t, i) - g * At(w, i)
    ensures SquareChanged(t, t', u, w, By(2.0 * g), By(g * g), i)
  {
    ByAdds(g * g, Sum(Products(w, w), i), Products(w, w)(i));
    ByAdds(2.0 * g, Sum(Differences(t, u, w), i), Differences(t, u, w)(i));
    OneSquareMoves(t, t', u, w, g, i);
  }

  lemma OneSquareMoves(t: Taps, t': Taps, u: Taps, w: Window, g: real, i: nat)
    requires At(t', i) == At(t, i) - g * At(w, i)
    ensures Squares(t', u)(i) == Squares(t, u)(i) - By(2.0 * g)(Differences(t, u, w)(i)) + By(g * g)(Products(w, w)(i))
  {
    MovedSquare(At(t, i), At(t', i), At(u, i), At(w, i), g);
  }

  lemma MovedSquare(a: real, a': real, b: real, x: real, g: real)
    requires a' == a - g * x
    ensures (a' - b) * (a' - b) == (a - b) * (a - b) - 2.0 * g * (a * x - b * x) + g * g * (x * x)
  {
    var d, y := a - b, g * x;
    assert a' - b == d - y;
    assert (d - y) * (d - y) == d * d - 2.0 * (d * y) + y * y;
    assert d * y == g * (a * x - b * x) && y * y == g * g * (x * x);
  }

  /** What one adaptation takes off the squared distance from taps that would make no error there. */
  function Gain(t: Taps, w: Window, ideal: real): real {
    var e := Filtered(t, w) - ideal;
    0.00005 * (2.0 - 0.00005 * Energy(w)) * (e * e)
  }

  lemma NearerByGain(t: Taps, w: Window, ideal: real, u: Taps)
    requires Filtered(u, w) == ideal
    ensures Distance(Adapted(t, w, ideal), u, NTAPS) == Distance(t, u, NTAPS) - Gain(t, w, ideal)
  {
    var g, t' := AllTapsMoved(t, w, ideal);
    var e, s, gain := Filtered(t, w) - ideal, Energy(w), Gain(t, w, ideal);
    AllSquaresMove(t, t', u, w, g, By(2.0 * g), By(g * g), NTAPS);
    GainIs(g, e, s, gain);
    MovedByGain(t, t', u, w, By(2.0 * g), By(g * g), NTAPS, e, s, gain);
  }

  lemma MovedByGain(t: Taps, t': Taps, u: Taps, w: Window, h: real -> real, q: real -> real, n: nat, e: real, s: real,
                    gain: real)
    requires h(0.0) == 0.0 && q(0.0) == 0.0 && SquaresChange(t, t', u, w, h, q, n)
    requires e == Dot(t, w, n) - Dot(u, w, n) && s == Dot(w, w, n) && h(e) - q(s) == gain
    ensures Distance(t', u, n) == Distance(t, u, n) - gain
  {
    DistanceMoved(t, t', u, w, h, q, n);
  }

  lemma AllSquaresMove(t: Taps, t': Taps, u: Taps, w: Window, g: real, h: real -> real, q: real -> real, n: nat)
    requires h == By(2.0 * g) && q == By(g * g)
    requires forall i :: 0 <= i < n ==> At(t', i) == At(t, i) - g * At(w, i)
    ensures h(0.0) == 0.0 && q(0.0) == 0.0 && SquaresChange(t, t', u, w, h, q, n)
  {
    ByAdds(2.0 * g, 0.0, 0.0);
    ByAdds(g * g, 0.0, 0.0);
    forall i: nat | 0 <= i < n
      ensures SquareChanged(t, t', u, w, h, q, i)
    {
      SquareMoves(t, t', u, w, g, i);
    }
  }

  lemma GainIs(g: real, e: real, s: real, gain: real)
    requires g == 0.00005 * e && gain == 0.00005 * (2.0 - 0.00005 * s) * (e * e)
    ensures By(2.0 * g)(e) - By(g * g)(s) == gain
  {
    assert g * g * s == 0.00005 * 0.00005 * s * (e * e);
    assert 2.0 * g * e == 0.00005 * 2.0 * (e * e);
  }

  /** Training goes on through the known part of a field sync only. */
  predicate Trains(role: Role) { role.InFieldSync? && role.offset < KNOWN_FIELD_SYNC_LENGTH }

  function Lms(training: (nat, nat) -> real): Filter<Taps, Window> {
    Filter((t: Taps, w: Window) => Filtered(t, w),
           (role: Role, t: Taps, w: Window) =>
             if Trains(role) then Adapted(t, w, training(role.field, role.offset)) else t)
  }

  // ---- Training over whole stretches ----

  /** Taps that make no error on a sample, if it is trained on: as one of the 704 known ones of a field sync. */
  ghost predicate ErrorFree(training: (nat, nat) -> real, role: Role, w: Window, u: Taps) {
    role.InFieldSync? && role.offset < 4 + 511 + 3 * 63 ==> Filtered(u, w) == training(role.field, role.offset)
  }

  function RoleGain(training: (nat, nat) -> real, role: Role, t: Taps, w: Window): real {
    if role.InFieldSync? && role.offset < 4 + 511 + 3 * 63 then Gain(t, w, training(role.field, role.offset)) else 0.0
  }

  /** What a sample is taken for after those before it. */
  function RoleAt(training: (nat, nat) -> real, p: Progress<Taps>, tags: seq<Tag>, ws: seq<Window>, k: nat): Role
    requires k < |tags| == |ws|
  {
    RoleOf(Upto(Lms(training), p, tags, ws, k).lock, tags[k])
  }

  ghost predicate Solves(training: (nat, nat) -> real, p: Progress<Taps>, tags: seq<Tag>, ws: seq<Window>, k: nat,
                         u: Taps)
    requires k <= |tags| == |ws|
  {
    forall j :: 0 <= j < k ==> ErrorFree(training, RoleAt(training, p, tags, ws, j), ws[j], u)
  }

  /** What a sample takes off the squared distance from such taps. */
  function GainBy(training: (nat, nat) -> real): (Role, Taps, Window) -> real {
    (role: Role, t: Taps, w: Window) => RoleGain(training, role, t, w)
  }

  function DistanceFrom(u: Taps): Taps -> real { (t: Taps) => Distance(t, u, NTAPS) }

  lemma LearnsByGain(training: (nat, nat) -> real, role: Role, t: Taps, w: Window, u: Taps)
    requires ErrorFree(training, role, w, u)
    ensures Distance(Lms(training).learn(role, t, w), u, NTAPS) ==
            Distance(t, u, NTAPS) - RoleGain(training, role, t, w)
  {
    if role.InFieldSync? && role.offset < 4 + 511 + 3 * 63 {
      NearerByGain(t, w, training(role.field, role.offset), u);
    }
  }

  /** Conservation: over any stretch of samples, whatever the lock does, the squared distance from taps that
      would make no error falls by the gains of the samples trained on, and by nothing else. */
  lemma TrainingLaw(training: (nat, nat) -> real, p: Progress<Taps>, tags: seq<Tag>, ws: seq<Window>, k: nat, u: Taps)
    requires k <= |tags| == |ws| && Solves(training, p, tags, ws, k, u)
    ensures Distance(Upto(Lms(training), p, tags, ws, k).state, u, NTAPS) ==
            Distance(p.state, u, NTAPS) - Total(Lms(training), p, tags, ws, k, GainBy(training))
  {
    var f := Lms(training);
    forall j | 0 <= j < k
      ensures TakesAt(f, p, tags, ws, j, DistanceFrom(u), GainBy(training))
    {
      assert ErrorFree(training, RoleAt(training, p, tags, ws, j), ws[j], u);
      SampleTakes(training, RoleAt(training, p, tags, ws, j), ws[j], u);
    }
    TotalTaken(f, p, tags, ws, k, DistanceFrom(u), GainBy(training));
  }

  lemma SampleTakes(training: (nat, nat) -> real, role: Role, w: Window, u: Taps)
    requires ErrorFree(training, role, w, u)
    ensures Takes(Lms(training), role, w, DistanceFrom(u), GainBy(training))
  {
    forall t: Taps
      ensures DistanceFrom(u)(Lms(training).learn(role, t, w)) == DistanceFrom(u)(t) - GainBy(training)(role, t, w)
    {
      LearnsByGain(training, role, t, w, u);
    }
  }

  ghost predicate Moderate(ws: seq<Window>) { forall w :: w in ws ==> Energy(w) <= 40000.0 }

  /** With windows of moderate energy no gain is negative, so the taps never move away. */
  lemma NeverAway(training: (nat, nat) -> real, p: Progress<Taps>, tags: seq<Tag>, ws: seq<Window>, k: nat)
    requires k <= |tags| == |ws| && Moderate(ws)
    ensures Total(Lms(training), p, tags, ws, k, GainBy(training)) >= 0.0
  {
    forall j, role: Role, t: Taps | 0 <= j < k
      ensures GainBy(training)(role, t, ws[j]) >= 0.0
    {
      assert ws[j] in ws;
      if role.InFieldSync? && role.offset < 4 + 511 + 3 * 63 {
        GainPositive(t, ws[j], training(role.field, role.offset));
      }
    }
    TotalNotNegative(Lms(training), p, tags, ws, k, GainBy(training));
  }

  ghost predicate CallSolved(training: (nat, nat) -> real, lock: Lock, taps: Taps, tags: seq<Tag>, ws: seq<Window>,
                             u: Taps)
    requires |tags| == |ws|
  {
    Solves(training, Progress(lock, taps, [], []), tags, ws, |tags|, u)
  }

  function CallGain(training: (nat, nat) -> real, lock: Lock, taps: Taps, tags: seq<Tag>, ws: seq<Window>): real
    requires |tags| == |ws|
  {
    Total(Lms(training), Progress(lock, taps, [], []), tags, ws, |tags|, GainBy(training))
  }

  /** The taps have come nearer, by the gain, to all taps that would have made no error in training. */
  ghost predicate Nearer(training: (nat, nat) -> real, lock: Lock, before: Taps, after: Taps, tags: seq<Tag>,
                         ws: seq<Window>)
    requires |tags| == |ws|
  {
    forall u: Taps :: CallSolved(training, lock, before, tags, ws, u) ==>
      Distance(after, u, NTAPS) == Distance(before, u, NTAPS) - CallGain(training, lock, before, tags, ws)
  }

  /** What one call does to the distance. */
  lemma CallTrains(training: (nat, nat) -> real, lock: Lock, taps: Taps, tags: seq<Tag>, ws: seq<Window>, beyond: Tag)
    requires |tags| == |ws|
    ensures Nearer(training, lock, taps, Call(Lms(training), lock, taps, tags, ws, beyond).state, tags, ws)
    ensures Moderate(ws) ==> CallGain(training, lock, taps, tags, ws) >= 0.0
  {
    forall u: Taps | CallSolved(training, lock, taps, tags, ws, u)
      ensures Distance(Call(Lms(training), lock, taps, tags, ws, beyond).state, u, NTAPS) ==
              Distance(taps, u, NTAPS) - CallGain(training, lock, taps, tags, ws)
    {
      TrainingLaw(training, Progress(lock, taps, [], []), tags, ws, |tags|, u);
    }
    if Moderate(ws) {
      NeverAway(training, Progress(lock, taps, [], []), tags, ws, |tags|);
    }
  }

  lemma GainPositive(t: Taps, w: Window, ideal: real)
    requires Energy(w) <= 40000.0
    ensures Gain(t, w, ideal) >= 0.0
  {
    var e := Filtered(t, w) - ideal;
    NoNegative(0.00005 * (2.0 - 0.00005 * Energy(w)), e);
  }

  lemma NoNegative(c: real, e: real)
    requires c >= 0.0
    ensures c * (e * e) >= 0.0
  {
    assert e * e >= 0.0;
  }

  function Windows(input: seq<real>, n: nat): (ws: seq<Window>)
    requires |input| >= n + NTAPS - 1
    ensures |ws| == n && forall k :: 0 <= k < n ==> |ws[k]| == 256
  {
    seq(n, k requires 0 <= k < n => input[k..k + NTAPS])
  }

  /** A chunk comes with the samples that its last windows reach into. */
  lemma WindowsSplit(input: seq<real>, n: nat, k: nat)
    requires k <= n && |input| >= n + NTAPS - 1
    ensures Windows(input, n)[..k] == Windows(input[..k + NTAPS - 1], k)
    ensures Windows(input, n)[k..] == Windows(input[k..], n - k)
  {
    forall i | 0 <= i < k
      ensures Windows(input, n)[..k][i] == Windows(input[..k + NTAPS - 1], k)[i]
    {
      assert input[i..i + NTAPS] == input[..k + NTAPS - 1][i..i + NTAPS];
    }
    forall i | 0 <= i < n - k
      ensures Windows(input, n)[k..][i] == Windows(input[k..], n - k)[i]
    {
      assert input[k + i..k + i + NTAPS] == input[k..][i..i + NTAPS];
    }
  }

  class Equalizer {
    var lockedP: bool
    var offsetFromLastFieldSync: nat
    var currentField: nat
    const taps: array<real>
    /** The training sequences, by field and place. */
    const training: (nat, nat) -> real
    ghost const lms: Filter<Taps, Window>

    ghost predicate Valid()
      reads this
    {
      taps.Length == NTAPS && lms == Lms(training) && offsetFromLastFieldSync <= SYMBOLS_PER_FIELD && currentField < 2
    }

    function L(): Lock
      reads this
    {
      Lock(lockedP, offsetFromLastFieldSync, currentField)
    }

    constructor (training: (nat, nat) -> real)
      ensures Valid() && fresh(taps) && this.training == training
      ensures L() == Lock(false, 0, 0) && taps[..] == seq(NTAPS, _ => 0.0)
    {
      this.training := training;
      lms := Lms(training);
      taps := new real[NTAPS](_ => 0.0);
      lockedP, offsetFromLastFieldSync, currentField := false, 0, 0;
      new;
      assert taps[..] == seq(NTAPS, _ => 0.0);
    }

    /** Four running sums. */
    method Filter1(w: Window) returns (y: real)
      requires Valid() && |w| == NTAPS
      ensures y == Filtered(taps[..], w)
    {
      var acc0, acc1, acc2, acc3 := 0.0, 0.0, 0.0, 0.0;
      var i := 0;
      ghost var ts := taps[..];
      while i < NTAPS
        invariant 0 <= i <= NTAPS && i % 4 == 0
        invariant acc0 + acc1 + acc2 + acc3 == Dot(ts, w, i)
      {
        FourMore(ts, w, i);
        acc0 := acc0 + taps[i] * w[i];
        acc1 := acc1 + taps[i + 1] * w[i + 1];
        acc2 := acc2 + taps[i + 2] * w[i + 2];
        acc3 := acc3 + taps[i + 3] * w[i + 3];
        i := i + 4;
      }
      y := acc0 + acc1 + acc2 + acc3;
    }

    lemma FourMore(ts: seq<real>, w: seq<real>, i: nat)
      requires i + 4 <= |ts| && i + 4 <= |w|
      ensures Dot(ts, w, i + 4) ==
              Dot(ts, w, i) + ts[i] * w[i] + ts[i + 1] * w[i + 1] + ts[i + 2] * w[i + 2] + ts[i + 3] * w[i + 3]
    {
      assert Dot(ts, w, i + 3) == Dot(ts, w, i + 2) + ts[i + 2] * w[i + 2];
      assert Dot(ts, w, i + 2) == Dot(ts, w, i + 1) + ts[i + 1] * w[i + 1];
    }

    method Adapt1(w: Window, idealOutput: real) returns (y: real)
      requires Valid() && |w| == NTAPS
      modifies taps
      ensures y == Filtered(old(taps[..]), w) && taps[..] == Adapted(old(taps[..]), w, idealOutput)
      ensures forall k :: 0 <= k < NTAPS ==> taps[k] == old(taps[k]) - 0.00005 * (y - idealOutput) * w[k]
      ensures Filtered(taps[..], w) - idealOutput == (1.0 - 0.00005 * Energy(w)) * (y - idealOutput)
    {
      y := Filter1(w);
      var e := y - idealOutput;
      for i := 0 to NTAPS
        invariant forall k :: 0 <= k < i ==> taps[k] == old(taps[k]) - BETA * e * w[k]
        invariant forall k :: i <= k < NTAPS ==> taps[k] == old(taps[k])
      {
        taps[i] := taps[i] - BETA * e * w[i];
      }
      ghost var want := Adapted(old(taps[..]), w, idealOutput);
      assert forall k :: 0 <= k < NTAPS ==> At(old(taps[..]), k) == old(taps[k]) && At(w, k) == w[k];
      assert forall k :: 0 <= k < NTAPS ==> taps[..][k] == want[k];
      Moved(old(taps[..]), taps[..], w, y, idealOutput);
    }

    // ---- The sub-filters ----

    /** Runs on without training. */
    method FilterN(output: array<real>, at: nat, ws: seq<Window>, from: nat, ghost state: Taps, ghost roles: seq<Role>)
      requires Valid() && output != taps && from <= |ws| == |roles| && at + |ws| <= output.Length
      requires (forall k :: 0 <= k < |ws| ==> |ws[k]| == NTAPS) && forall k :: from <= k < |ws| ==> !Trains(roles[k])
      requires Done(lms, state, roles, ws, from, taps[..], output[at..at + from])
      modifies output
      ensures Done(lms, state, roles, ws, |ws|, taps[..], output[at..at + |ws|])
      ensures output[..at] == old(output[..at])
    {
      ghost var now := taps[..];
      for i := from to |ws|
        invariant Done(lms, state, roles, ws, i, now, output[at..at + i])
        invariant output[..at] == old(output[..at])
      {
        FilterNext(output, at, ws, i, state, roles, now);
      }
      assert taps[..] == now;
    }

    method FilterNext(output: array<real>, at: nat, ws: seq<Window>, i: nat, ghost state: Taps, ghost roles: seq<Role>,
                      ghost now: Taps)
      requires Valid() && output != taps && i < |ws| == |roles| && at + |ws| <= output.Length && |ws[i]| == NTAPS
      requires now == taps[..] && !Trains(roles[i]) && Done(lms, state, roles, ws, i, now, output[at..at + i])
      modifies output
      ensures Done(lms, state, roles, ws, i + 1, now, output[at..at + i + 1])
      ensures output[..at] == old(output[..at])
    {
      ghost var outs := output[at..at + i];
      DoneOneMore(lms, state, roles, ws, i, now, outs);
      var y := Filter1(ws[i]);
      output[at + i] := y;
      assert output[at..at + i + 1] == outs + [y];
    }

    /** Trains on the first n samples of a piece of a field sync. */
    method AdaptN(output: array<real>, at: nat, ws: seq<Window>, n: nat, offset: nat, field: nat,
                  ghost roles: seq<Role>)
      requires Valid() && output != taps && n <= |ws| == |roles| && at + |ws| <= output.Length
      requires forall k :: 0 <= k < |ws| ==> |ws[k]| == NTAPS
      requires forall k :: 0 <= k < n ==> roles[k] == InFieldSync(offset + k, field) && Trains(roles[k])
      modifies output, taps
      ensures Done(lms, old(taps[..]), roles, ws, n, taps[..], output[at..at + n])
      ensures output[..at] == old(output[..at])
    {
      ghost var state := taps[..];
      for i := 0 to n
        invariant Done(lms, state, roles, ws, i, taps[..], output[at..at + i]) && output[..at] == old(output[..at])
      {
        AdaptNext(output, at, ws, i, offset, field, state, roles);
      }
    }

    method AdaptNext(output: array<real>, at: nat, ws: seq<Window>, i: nat, offset: nat, field: nat,
                     ghost state: Taps, ghost roles: seq<Role>)
      requires Valid() && output != taps && i < |ws| == |roles| && at + |ws| <= output.Length && |ws[i]| == NTAPS
      requires roles[i] == InFieldSync(offset + i, field) && Trains(roles[i])
      requires Done(lms, state, roles, ws, i, taps[..], output[at..at + i])
      modifies output, taps
      ensures Done(lms, state, roles, ws, i + 1, taps[..], output[at..at + i + 1])
      ensures output[..at] == old(output[..at])
    {
      ghost var before, outs := taps[..], output[at..at + i];
      DoneOneMore(lms, state, roles, ws, i, before, outs);
      var y := Adapt1(ws[i], training(field, offset + i));
      output[at + i] := y;
      assert output[at..at + i + 1] == outs + [y];
    }

    method FilterNormal(output: array<real>, at: nat, ws: seq<Window>)
      requires Valid() && output != taps && at + |ws| <= output.Length && InRange(Normal(|ws|))
      requires forall k :: 0 <= k < |ws| ==> |ws[k]| == NTAPS
      modifies output, taps
      ensures Done(lms, old(taps[..]), RolesOf(Normal(|ws|)), ws, |ws|, taps[..], output[at..at + |ws|])
      ensures output[..at] == old(output[..at])
    {
      FilterN(output, at, ws, 0, taps[..], RolesOf(Normal(|ws|)));
    }

    method FilterDataSegSync(output: array<real>, at: nat, ws: seq<Window>, offset: nat)
      requires Valid() && output != taps && at + |ws| <= output.Length && InRange(SegmentSync(|ws|, offset))
      requires forall k :: 0 <= k < |ws| ==> |ws[k]| == NTAPS
      modifies output, taps
      ensures Done(lms, old(taps[..]), RolesOf(SegmentSync(|ws|, offset)), ws, |ws|, taps[..], output[at..at + |ws|])
      ensures output[..at] == old(output[..at])
    {
      FilterN(output, at, ws, 0, taps[..], RolesOf(SegmentSync(|ws|, offset)));
    }

    method FilterFieldSync(output: array<real>, at: nat, ws: seq<Window>, offset: nat, whichField: nat)
      requires Valid() && output != taps && at + |ws| <= output.Length && InRange(FieldSync(|ws|, offset, whichField))
      requires forall k :: 0 <= k < |ws| ==> |ws[k]| == NTAPS
      modifies output, taps
      ensures Done(lms, old(taps[..]), RolesOf(FieldSync(|ws|, offset, whichField)), ws, |ws|, taps[..],
                   output[at..at + |ws|])
      ensures output[..at] == old(output[..at])
    {
      ghost var roles := RolesOf(FieldSync(|ws|, offset, whichField));
      var known: nat := if offset < KNOWN_FIELD_SYNC_LENGTH then KNOWN_FIELD_SYNC_LENGTH - offset else 0;
      var n: nat := if |ws| < known then |ws| else known;
      AdaptN(output, at, ws, n, offset, whichField, roles);
      if |ws| > n {
        FilterN(output, at, ws, n, old(taps[..]), roles);
      }
    }

    // ---- The segmenter ----

    method FindFieldSync(tags: seq<Tag>, from: nat) returns (i: nat)
      requires from <= |tags|
      ensures from <= i <= |tags| && (forall k :: from <= k < i ==> tags[k] == Plain)
              && (i < |tags| ==> tags[i] != Plain)
    {
      i := from;
      while i < |tags| && tags[i] == Plain
        invariant from <= i <= |tags| && forall k :: from <= k < i ==> tags[k] == Plain
      {
        i := i + 1;
      }
    }

    ghost predicate Ready(tags: seq<Tag>, ws: seq<Window>, output: array<real>, pos: nat)
      reads this
    {
      && Valid() && output != taps && |tags| == |ws| && pos + |ws| == output.Length
      && forall k :: 0 <= k < |ws| ==> |ws[k]| == NTAPS
    }

    /** While there is no lock, everything up to the next field sync takes the normal path. */
    method UnlockedPart(tags: seq<Tag>, ws: seq<Window>, output: array<real>, pos: nat, n: nat)
      requires Ready(tags, ws, output, pos) && 0 < n <= |tags|
      requires !lockedP && forall k :: 0 <= k < n ==> tags[k] == Plain
      modifies output, taps
      ensures output[..pos] == old(output[..pos])
      ensures Done(lms, old(taps[..]), RolesOf(Normal(n)), ws[..n], n, taps[..], output[pos..pos + n])
    {
      FilterNormal(output, pos, ws[..n]);
    }

    method FieldStart(tags: seq<Tag>, ws: seq<Window>, output: array<real>, pos: nat) returns (n: nat, ghost x: Piece)
      requires Ready(tags, ws, output, pos) && tags != []
      requires lockedP && AtBoundary(offsetFromLastFieldSync) && tags[0] != Plain
      modifies this`offsetFromLastFieldSync, this`currentField, output, taps
      ensures Valid() && n <= |tags| && output[..pos] == old(output[..pos])
      ensures PieceDone(lms, x, n, old(L()), L(), tags, ws, old(taps[..]), taps[..], output[pos..pos + n])
    {
      n := if |tags| < SEGMENT then |tags| else SEGMENT;
      currentField := if tags[0] == FieldSync1 then 0 else 1;
      x := FieldSync(n, 0, currentField);
      FilterFieldSync(output, pos, ws[..n], 0, currentField);
      offsetFromLastFieldSync := n;
    }

    method FieldRest(tags: seq<Tag>, ws: seq<Window>, output: array<real>, pos: nat) returns (n: nat, ghost x: Piece)
      requires Ready(tags, ws, output, pos) && tags != []
      requires lockedP && 0 < offsetFromLastFieldSync < SEGMENT
      modifies this`offsetFromLastFieldSync, output, taps
      ensures Valid() && n <= |tags| && output[..pos] == old(output[..pos])
      ensures PieceDone(lms, x, n, old(L()), L(), tags, ws, old(taps[..]), taps[..], output[pos..pos + n])
    {
      var left := SEGMENT - offsetFromLastFieldSync;
      n := if |tags| < left then |tags| else left;
      x := FieldSync(n, offsetFromLastFieldSync, currentField);
      FilterFieldSync(output, pos, ws[..n], offsetFromLastFieldSync, currentField);
      offsetFromLastFieldSync := offsetFromLastFieldSync + n;
    }

    method FilterClear(output: array<real>, at: nat, ws: seq<Window>, segOffset: nat)
      requires Valid() && output != taps && at + |ws| <= output.Length && 0 < |ws|
      requires segOffset < 4 ==> segOffset + |ws| <= 4
      requires forall k :: 0 <= k < |ws| ==> |ws[k]| == NTAPS
      modifies output, taps
      ensures output[..at] == old(output[..at])
      ensures Done(lms, old(taps[..]), RolesOf(if segOffset < 4 then SegmentSync(|ws|, segOffset) else Normal(|ws|)),
                   ws, |ws|, taps[..], output[at..at + |ws|])
    {
      if segOffset < 4 {
        FilterDataSegSync(output, at, ws, segOffset);
      } else {
        FilterNormal(output, at, ws);
      }
    }

    method ClearPart(tags: seq<Tag>, ws: seq<Window>, output: array<real>, pos: nat) returns (n: nat, ghost x: Piece)
      requires Ready(tags, ws, output, pos) && tags != []
      requires lockedP && SEGMENT <= offsetFromLastFieldSync < SYMBOLS_PER_FIELD
      modifies this`offsetFromLastFieldSync, output, taps
      ensures Valid() && n <= |tags| && output[..pos] == old(output[..pos])
      ensures PieceDone(lms, x, n, old(L()), L(), tags, ws, old(taps[..]), taps[..], output[pos..pos + n])
    {
      var segOffset := offsetFromLastFieldSync % SEGMENT;
      var left := if segOffset < 4 then 4 - segOffset else SEGMENT - segOffset;
      n := if |tags| < left then |tags| else left;
      x := if segOffset < 4 then SegmentSync(n, segOffset) else Normal(n);
      InSegment(offsetFromLastFieldSync, n - 1);
      FilterClear(output, pos, ws[..n], segOffset);
      offsetFromLastFieldSync := offsetFromLastFieldSync + n;
    }

    /** In lock: one piece of a field sync, of a segment sync, or of the data between them. */
    method LockedPart(tags: seq<Tag>, ws: seq<Window>, output: array<real>, pos: nat) returns (n: nat, ghost x: Piece)
      requires Ready(tags, ws, output, pos) && tags != []
      requires lockedP && (AtBoundary(offsetFromLastFieldSync) ==> tags[0] != Plain)
      modifies this`offsetFromLastFieldSync, this`currentField, output, taps
      ensures Valid() && n <= |tags| && output[..pos] == old(output[..pos])
      ensures PieceDone(lms, x, n, old(L()), L(), tags, ws, old(taps[..]), taps[..], output[pos..pos + n])
    {
      BoundaryIsMultiple(offsetFromLastFieldSync);
      if offsetFromLastFieldSync % SYMBOLS_PER_FIELD == 0 {
        n, x := FieldStart(tags, ws, output, pos);
      } else if offsetFromLastFieldSync < SEGMENT {
        n, x := FieldRest(tags, ws, output, pos);
      } else {
        n, x := ClearPart(tags, ws, output, pos);
      }
    }

    ghost predicate Setup(tags: seq<Tag>, ws: seq<Window>, output: array<real>)
      reads this
    {
      && Valid() && output != taps && |tags| == |ws| == output.Length
      && forall k :: 0 <= k < |ws| ==> |ws[k]| == NTAPS
    }

    /** The whole run, seen from where the machine is: what it has done, and what is to come. */
    ghost predicate Underway(total: Progress<Taps>, tags: seq<Tag>, ws: seq<Window>, output: array<real>, pos: nat,
                             pieces: seq<Piece>)
      reads this, taps, output
    {
      && Setup(tags, ws, output) && pos <= |tags| && AllInRange(pieces)
      && total == ToCome(lms, Progress(L(), taps[..], AllRoles(pieces), output[..pos]), tags, ws, pos)
    }

    /** Between two pieces the lock changes at most once. */
    ghost function Rank(tags: seq<Tag>, pos: nat): nat
      reads this
    {
      if pos >= |tags| then 0
      else if lockedP then (if AtBoundary(offsetFromLastFieldSync) && tags[pos] == Plain then 1 else 0)
      else if tags[pos] == Plain then 0 else 1
    }

    method LockedPiece(ghost total: Progress<Taps>, tags: seq<Tag>, ws: seq<Window>, output: array<real>, pos: nat,
                       ghost pieces: seq<Piece>)
      returns (n: nat, ghost x: Piece)
      requires Underway(total, tags, ws, output, pos, pieces) && pos < |tags|
      requires lockedP && (AtBoundary(offsetFromLastFieldSync) ==> tags[pos] != Plain)
      modifies this`offsetFromLastFieldSync, this`currentField, output, taps
      ensures n > 0 && Underway(total, tags, ws, output, pos + n, pieces + [x])
    {
      ghost var p := Progress(L(), taps[..], AllRoles(pieces), output[..pos]);
      n, x := LockedPart(tags[pos..], ws[pos..], output, pos);
      ChosenRuns(lms, p, tags[pos..], ws[pos..], x, L(), taps[..], output[pos..pos + n]);
      assert output[..pos + n] == output[..pos] + output[pos..pos + n];
      MoreRoles(pieces, x);
      FurtherOn(lms, p, Progress(L(), taps[..], AllRoles(pieces + [x]), output[..pos + n]), tags, ws, pos, n);
    }

    method LockedTurn(ghost total: Progress<Taps>, tags: seq<Tag>, ws: seq<Window>, output: array<real>, pos: nat,
                      ghost pieces: seq<Piece>)
      returns (next: nat, ghost more: seq<Piece>)
      requires Underway(total, tags, ws, output, pos, pieces) && pos < |tags|
      requires lockedP && (AtBoundary(offsetFromLastFieldSync) ==> tags[pos] != Plain)
      modifies this`offsetFromLastFieldSync, this`currentField, output, taps
      ensures pos < next && Underway(total, tags, ws, output, next, more)
    {
      var n;
      ghost var x;
      n, x := LockedPiece(total, tags, ws, output, pos, pieces);
      next, more := pos + n, pieces + [x];
    }

    /** No field sync where one was due: the lock is lost. */
    method LostTurn(ghost total: Progress<Taps>, tags: seq<Tag>, ws: seq<Window>, output: array<real>, pos: nat,
                    ghost pieces: seq<Piece>)
      returns (next: nat, ghost more: seq<Piece>)
      requires Underway(total, tags, ws, output, pos, pieces) && pos < |tags|
      requires lockedP && AtBoundary(offsetFromLastFieldSync) && tags[pos] == Plain
      modifies this`lockedP, this`offsetFromLastFieldSync
      ensures Underway(total, tags, ws, output, next, more) && next == pos && !lockedP
    {
      ChangeLock(total, tags, ws, output, pos, pieces, false);
      next, more := pos, pieces;
    }

    method UnlockedTurn(ghost total: Progress<Taps>, tags: seq<Tag>, ws: seq<Window>, output: array<real>, pos: nat,
                        n: nat, ghost pieces: seq<Piece>)
      requires Underway(total, tags, ws, output, pos, pieces) && 0 < n <= |tags| - pos
      requires !lockedP && forall k :: pos <= k < pos + n ==> tags[k] == Plain
      modifies output, taps
      ensures Underway(total, tags, ws, output, pos + n, pieces + [Normal(n)])
    {
      ghost var p := Progress(L(), taps[..], AllRoles(pieces), output[..pos]);
      UnlockedPart(tags[pos..], ws[pos..], output, pos, n);
      UnlockedRuns(lms, p, tags[pos..], ws[pos..], n, taps[..], output[pos..pos + n]);
      assert output[..pos + n] == output[..pos] + output[pos..pos + n];
      MoreRoles(pieces, Normal(n));
      FurtherOn(lms, p, Progress(L(), taps[..], AllRoles(pieces + [Normal(n)]), output[..pos + n]), tags, ws, pos, n);
    }

    /** A field sync has been found, or has not been found where it was due: the samples ahead are
        taken for the same either way. */
    method ChangeLock(ghost total: Progress<Taps>, tags: seq<Tag>, ws: seq<Window>, output: array<real>, pos: nat,
                      ghost pieces: seq<Piece>, lock: bool)
      requires Underway(total, tags, ws, output, pos, pieces) && pos < |tags|
      requires if lock then !lockedP && tags[pos] != Plain
               else lockedP && AtBoundary(offsetFromLastFieldSync) && tags[pos] == Plain
      modifies this`lockedP, this`offsetFromLastFieldSync
      ensures Underway(total, tags, ws, output, pos, pieces) && lockedP == lock && offsetFromLastFieldSync == 0
    {
      ghost var p := Progress(L(), taps[..], AllRoles(pieces), output[..pos]);
      Relock(lms, p, Lock(lock, 0, currentField), tags[pos..], ws[pos..], |tags| - pos);
      lockedP, offsetFromLastFieldSync := lock, 0;
    }

    /** Without lock: everything up to the next field sync, and then the lock on it. */
    method SearchTurn(ghost total: Progress<Taps>, tags: seq<Tag>, ws: seq<Window>, output: array<real>, pos: nat,
                      ghost pieces: seq<Piece>)
      returns (next: nat, ghost more: seq<Piece>)
      requires Underway(total, tags, ws, output, pos, pieces) && pos < |tags| && !lockedP
      modifies this, taps, output
      ensures Underway(total, tags, ws, output, next, more)
      ensures pos < next || (pos == next && tags[pos] != Plain && lockedP)
    {
      next := FindFieldSync(tags, pos);
      more := RunUpTo(total, tags, ws, output, pos, next, pieces);
      if next < |tags| {
        ChangeLock(total, tags, ws, output, next, more, true);
      }
    }

    method RunUpTo(ghost total: Progress<Taps>, tags: seq<Tag>, ws: seq<Window>, output: array<real>, pos: nat,
                   next: nat, ghost pieces: seq<Piece>)
      returns (ghost more: seq<Piece>)
      requires Underway(total, tags, ws, output, pos, pieces) && pos <= next <= |tags| && !lockedP
      requires forall k :: pos <= k < next ==> tags[k] == Plain
      modifies output, taps
      ensures Underway(total, tags, ws, output, next, more)
    {
      more := pieces;
      if next > pos {
        UnlockedTurn(total, tags, ws, output, pos, next - pos, pieces);
        more := pieces + [Normal(next - pos)];
      }
    }

    /** One turn of the loop: a piece, or a change of lock, or both. */
    method Turn(ghost total: Progress<Taps>, tags: seq<Tag>, ws: seq<Window>, output: array<real>, pos: nat,
                ghost pieces: seq<Piece>)
      returns (next: nat, ghost more: seq<Piece>)
      requires Underway(total, tags, ws, output, pos, pieces) && pos < |tags|
      modifies this, taps, output
      ensures Underway(total, tags, ws, output, next, more)
      ensures pos < next || (pos == next && Rank(tags, next) < old(Rank(tags, pos)))
    {
      if !lockedP {
        next, more := SearchTurn(total, tags, ws, output, pos, pieces);
      } else if AtBoundary(offsetFromLastFieldSync) && tags[pos] == Plain {
        next, more := LostTurn(total, tags, ws, output, pos, pieces);
      } else {
        next, more := LockedTurn(total, tags, ws, output, pos, pieces);
      }
    }

    ghost predicate CanFilter(input: seq<real>, tags: seq<Tag>, output: array<real>)
      reads this
    {
      Valid() && output != taps && output.Length == |tags| && |input| >= |tags| + NTAPS - 1
    }

    lemma Beginning(total: Progress<Taps>, tags: seq<Tag>, ws: seq<Window>, output: array<real>)
      requires Valid() && output != taps && output.Length == |tags| == |ws|
      requires forall k :: 0 <= k < |ws| ==> |ws[k]| == NTAPS
      requires total == Upto(lms, Progress(L(), taps[..], [], []), tags, ws, |tags|)
      ensures Underway(total, tags, ws, output, 0, [])
    {
      assert tags[0..] == tags && ws[0..] == ws && output[..0] == [];
    }

    lemma Finished(total: Progress<Taps>, tags: seq<Tag>, ws: seq<Window>, output: array<real>, pieces: seq<Piece>)
      requires output.Length == |tags| && Underway(total, tags, ws, output, |tags|, pieces)
      ensures total == Progress(L(), taps[..], AllRoles(pieces), output[..])
    {
      assert output[..|tags|] == output[..];
    }

    /** No sample, but the tag behind the chunk is looked at where a field sync is due. */
    method LookBeyond(beyond: Tag)
      requires Valid()
      modifies this`lockedP, this`offsetFromLastFieldSync, this`currentField
      ensures Valid() && L() == Looked(old(L()), beyond)
    {
      if lockedP && AtBoundary(offsetFromLastFieldSync) {
        offsetFromLastFieldSync := 0;
        if beyond == FieldSync1 {
          currentField := 0;
        } else if beyond == FieldSync2 {
          currentField := 1;
        } else {
          lockedP := false;
        }
      }
    }

    /** Any chunk, from any state: every sample goes to one sub-filter, in order and in the range it
        is documented for, and the outputs and the state are those of the sample-wise machine. */
    method Filter(input: seq<real>, tags: seq<Tag>, beyond: Tag, output: array<real>) returns (ghost pieces: seq<Piece>)
      requires CanFilter(input, tags, output)
      modifies this, taps, output
      ensures Valid() && AllInRange(pieces)
      ensures Call(lms, old(L()), old(taps[..]), tags, Windows(input, |tags|), beyond) ==
              Progress(L(), taps[..], AllRoles(pieces), output[..])
      ensures Nearer(training, old(L()), old(taps[..]), taps[..], tags, Windows(input, |tags|))
    {
      CallTrains(training, L(), taps[..], tags, Windows(input, |tags|), beyond);
      if |tags| == 0 {
        LookBeyond(beyond);
      }
      var ws := Windows(input, |tags|);
      ghost var total := Upto(lms, Progress(L(), taps[..], [], []), tags, ws, |tags|);
      Beginning(total, tags, ws, output);
      var pos := 0;
      pieces := [];
      while pos < |tags|
        invariant Underway(total, tags, ws, output, pos, pieces)
        decreases |tags| - pos, Rank(tags, pos)
      {
        pos, pieces := Turn(total, tags, ws, output, pos, pieces);
      }
      Finished(total, tags, ws, output, pieces);
    }

    /** Two calls on the two parts of a chunk leave the outputs and the taps that one call on the whole
        leaves, and pass the samples to the same sub-filters. */
    method FilterInTwo(input: seq<real>, tags: seq<Tag>, beyond: Tag, k: nat, first: array<real>, second: array<real>)
      returns (ghost pieces: seq<Piece>)
      requires k <= |tags| && |input| >= |tags| + NTAPS - 1 && first != second
      requires CanFilter(input[..k + NTAPS - 1], tags[..k], first) && CanFilter(input[k..], tags[k..], second)
      modifies this, taps, first, second
      ensures Valid() && AllInRange(pieces)
      ensures var whole := Call(lms, old(L()), old(taps[..]), tags, Windows(input, |tags|), beyond);
              && whole == Progress(whole.lock, taps[..], AllRoles(pieces), first[..] + second[..])
              && SameAhead(L(), whole.lock) && (k < |tags| ==> L() == whole.lock)
    {
      WindowsSplit(input, |tags|, k);
      ghost var ws, lock, before := Windows(input, |tags|), L(), taps[..];
      ghost var pieces', pieces'';
      pieces' := Filter(input[..k + NTAPS - 1], tags[..k], if k < |tags| then tags[k] else beyond, first);
      ghost var p := Progress(L(), taps[..], AllRoles(pieces'), first[..]);
      pieces'' := Filter(input[k..], tags[k..], beyond, second);
      ghost var q := Progress(L(), taps[..], AllRoles(pieces''), second[..]);
      pieces := pieces' + pieces'';
      JoinRoles(pieces', pieces'');
      TwoCallsMake(lms, lock, before, tags, ws, k, beyond, p, q);
    }
  }
}
