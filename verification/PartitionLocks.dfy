/** The per-id locks of sync/plocker.go and sync/prwlocker.go: what each region under the locker's own mutex does, and
    each step of a record's mutex, over lock records L. */
module KeyedLocks {
  datatype Mode = Reading | Writing

  /** A lock record: the state of its mutex, and its reference count. A writer is pending from the moment it has
      its turn among the writers until the readers before it are gone; readers that arrive while a writer is
      pending or holds are blocked until that writer unlocks, which lets all of them in. */
  datatype Lock = Lock(writer: bool, pending: bool, readers: nat, blocked: nat, refs: int)

  const UNUSED := Lock(false, false, 0, 0, 0)

  /** The locker's map, and every record it ever made, dropped ones included. */
  datatype Table<L> = Table(index: map<string, L>, locks: map<L, Lock>)

  /** lockInfo; `spare` is the record made when the id has none. */
  function Looked<L(==)>(t: Table<L>, id: string, spare: L): Table<L> {
    if id in t.index then t else Table(t.index[id := spare], t.locks[spare := UNUSED])
  }

  /** The region of Lock and of RLock. */
  function Enter<L(==)>(t: Table<L>, id: string, spare: L): Table<L>
    requires t.index.Values <= t.locks.Keys
  {
    var u := Looked(t, id, spare);
    var l := u.index[id];
    u.(locks := u.locks[l := u.locks[l].(refs := u.locks[l].refs + 1)])
  }

  /** No writer holds or is pending. */
  predicate Open(l: Lock) {
    !l.writer && !l.pending
  }

  /** A reader arrives at the mutex: it holds it, or is blocked. */
  function Arrived(l: Lock): Lock {
    if Open(l) then l.(readers := l.readers + 1) else l.(blocked := l.blocked + 1)
  }

  /** A writer's turn among the writers comes. */
  function Claimed(l: Lock): Lock
    requires Open(l)
  {
    l.(pending := true)
  }

  /** The pending writer may hold the mutex. */
  predicate Free(l: Lock) {
    l.pending && l.readers == 0
  }

  function Taken(l: Lock): Lock
    requires Free(l)
  {
    l.(pending := false, writer := true)
  }

  predicate Held(l: Lock, mode: Mode) {
    if mode.Writing? then l.writer else l.readers > 0
  }

  /** A mutex unlocked by nobody that holds it notices, unless a writer is pending (for Unlock) or readers are
      blocked (for RUnlock): the mutex cannot tell these from holders. */
  predicate Noticed(l: Lock, mode: Mode) {
    if mode.Writing? then Open(l) else l.readers + l.blocked == 0
  }

  function Left(l: Lock, mode: Mode): Lock
    requires Held(l, mode)
  {
    var k := l.(refs := l.refs - 1);
    if mode.Writing? then k.(writer := false, readers := l.readers + l.blocked, blocked := 0) else k.(readers := l.readers - 1)
  }

  /** What Unlock and RUnlock come to: the fatal error of the mutex, an unnoticed misuse, after which nothing is
      known of it, or the next table. */
  datatype Outcome<L> = Fatal | Unnoticed | Done(table: Table<L>)

  /** A record that lockInfo would make for the call is not locked. */
  function Leave<L(==)>(t: Table<L>, id: string, mode: Mode): Outcome<L>
    requires t.index.Values <= t.locks.Keys
  {
    if id !in t.index then Fatal
    else
      var l := t.index[id];
      if Held(t.locks[l], mode) then
        var left := Left(t.locks[l], mode);
        Done(Table(if left.refs == 0 then t.index - {id} else t.index, t.locks[l := left]))
      else if Noticed(t.locks[l], mode) then Fatal
      else Unnoticed
  }
}

/** Any number of goroutines using one locker, in every interleaving. */
module LockProtocol {
  import opened FiniteSets
  import opened KeyedLocks

  type Token = nat

  /** Where an acquisition is: past the region, a reader blocked at the mutex, a writer pending there, or holding. */
  datatype Phase = Announced | Blocked | Pending | Holding

  /** One acquisition, with the record it uses. */
  datatype Acquisition<L> = Acquisition(id: string, mode: Mode, lock: L, phase: Phase)

  type Acquisitions<L> = map<Token, Acquisition<L>>

  datatype State<L> = State(table: Table<L>, acqs: Acquisitions<L>, failed: bool)

  datatype Step<L> =
    | Announce(tok: Token, id: string, mode: Mode, spare: L)  // the region of Lock or RLock
    | Arrive(tok: Token)                                      // a reader comes to the mutex
    | Claim(tok: Token)                                       // a writer's turn among the writers comes
    | Acquire(tok: Token)                                     // the pending writer holds the mutex
    | Release(tok: Token)                                     // the holder calls Unlock or RUnlock

  function Initial<L(==)>(): State<L> {
    State(Table(map[], map[]), map[], false)
  }

  predicate Is<L(==)>(s: State<L>, tok: Token, mode: Mode, phase: Phase) {
    tok in s.acqs && s.acqs[tok].mode == mode && s.acqs[tok].phase == phase && s.acqs[tok].lock in s.table.locks
  }

  predicate Enabled<L(==)>(s: State<L>, step: Step<L>) {
    && s.table.index.Values <= s.table.locks.Keys
    && match step
    case Announce(tok, _, _, spare) => tok !in s.acqs && spare !in s.table.locks
    case Arrive(tok) => Is(s, tok, Reading, Announced)
    case Claim(tok) => Is(s, tok, Writing, Announced) && Open(s.table.locks[s.acqs[tok].lock])
    case Acquire(tok) => Is(s, tok, Writing, Pending) && Free(s.table.locks[s.acqs[tok].lock])
    case Release(tok) => tok in s.acqs && s.acqs[tok].phase.Holding?
  }

  /** The writer of an id unlocks: the readers it blocked hold. */
  function Unblocked<L>(acqs: Acquisitions<L>, id: string): Acquisitions<L> {
    map k | k in acqs :: if acqs[k].id == id && acqs[k].phase.Blocked? then acqs[k].(phase := Holding) else acqs[k]
  }

  /** An acquisition moves on, and its record with it. */
  function Moved<L(==)>(s: State<L>, tok: Token, phase: Phase, l: Lock): State<L>
    requires tok in s.acqs
  {
    s.(table := s.table.(locks := s.table.locks[s.acqs[tok].lock := l]), acqs := s.acqs[tok := s.acqs[tok].(phase := phase)])
  }

  function Released<L(==)>(acqs: Acquisitions<L>, tok: Token): Acquisitions<L>
    requires tok in acqs
  {
    (if acqs[tok].mode.Writing? then Unblocked(acqs, acqs[tok].id) else acqs) - {tok}
  }

  function Apply<L(==)>(s: State<L>, step: Step<L>): State<L>
    requires Enabled(s, step)
  {
    match step
    case Announce(tok, id, mode, spare) =>
      var t := Enter(s.table, id, spare);
      s.(table := t, acqs := s.acqs[tok := Acquisition(id, mode, t.index[id], Announced)])
    case Arrive(tok) =>
      var l := s.table.locks[s.acqs[tok].lock];
      Moved(s, tok, if Open(l) then Holding else Blocked, Arrived(l))
    case Claim(tok) => Moved(s, tok, Pending, Claimed(s.table.locks[s.acqs[tok].lock]))
    case Acquire(tok) => Moved(s, tok, Holding, Taken(s.table.locks[s.acqs[tok].lock]))
    case Release(tok) =>
      match Leave(s.table, s.acqs[tok].id, s.acqs[tok].mode)
      case Done(t) => s.(table := t, acqs := Released(s.acqs, tok))
      case _ => s.(failed := true)
  }

  // ---------------------------------------------------------------- invariant

  function Users<L(==)>(acqs: Acquisitions<L>, id: string): set<Token> {
    set k | k in acqs && acqs[k].id == id
  }

  function At<L(==)>(acqs: Acquisitions<L>, id: string, mode: Mode, phase: Phase): set<Token> {
    set k | k in acqs && acqs[k].id == id && acqs[k].mode == mode && acqs[k].phase == phase
  }

  function One(b: bool): nat {
    if b then 1 else 0
  }

  /** The record tells exactly who uses the id, and how. */
  predicate Tells<L(==)>(l: Lock, acqs: Acquisitions<L>, id: string) {
    && l.refs == |Users(acqs, id)|
    && l.readers == |At(acqs, id, Reading, Holding)| && l.blocked == |At(acqs, id, Reading, Blocked)|
    && One(l.writer) == |At(acqs, id, Writing, Holding)| && One(l.pending) == |At(acqs, id, Writing, Pending)|
    && !(l.writer && l.readers > 0) && !(l.writer && l.pending) && (l.blocked > 0 ==> l.writer || l.pending)
  }

  /** Only readers are blocked, and only writers pending. */
  predicate Proper<L>(a: Acquisition<L>) {
    (a.phase.Blocked? ==> a.mode.Reading?) && (a.phase.Pending? ==> a.mode.Writing?)
  }

  /** Whoever uses an id does so on the record the map has for it. */
  predicate Shared<L(==)>(s: State<L>) {
    forall k :: k in s.acqs ==> s.acqs[k].id in s.table.index && s.acqs[k].lock == s.table.index[s.acqs[k].id] && Proper(s.acqs[k])
  }

  /** Ids have records of their own; a record is in the map exactly while it has references, and the others are
      as new. */
  predicate Indexed<L(==)>(t: Table<L>) {
    && t.index.Values <= t.locks.Keys
    && (forall a, b :: a in t.index && b in t.index && t.index[a] == t.index[b] ==> a == b)
    && (forall l :: l in t.locks ==> if l in t.index.Values then t.locks[l].refs > 0 else t.locks[l] == UNUSED)
  }

  predicate Told<L(==)>(s: State<L>)
    requires Indexed(s.table)
  {
    forall id :: id in s.table.index ==> Tells(s.table.locks[s.table.index[id]], s.acqs, id)
  }

  predicate Inv<L(==)>(s: State<L>) {
    !s.failed && Shared(s) && Indexed(s.table) && Told(s)
  }

  // ---------------------------------------------------------------- counting

  lemma CountWithout(a: set<Token>, b: set<Token>, tok: Token)
    requires b == a - {tok}
    ensures |a| == |b| + One(tok in a)
  {
    if tok !in a {
      assert a == b;
    }
  }

  predicate SameBut<L(==)>(acqs: Acquisitions<L>, after: Acquisitions<L>, tok: Token) {
    acqs - {tok} == after - {tok}
  }

  lemma UsersWithout<L>(acqs: Acquisitions<L>, tok: Token, id: string)
    ensures |Users(acqs, id)| == |Users(acqs - {tok}, id)| + One(tok in acqs && acqs[tok].id == id)
  {
    assert Users(acqs - {tok}, id) == Users(acqs, id) - {tok};
    CountWithout(Users(acqs, id), Users(acqs - {tok}, id), tok);
  }

  predicate Stands<L(==)>(acqs: Acquisitions<L>, tok: Token, id: string, mode: Mode, phase: Phase) {
    tok in acqs && acqs[tok].id == id && acqs[tok].mode == mode && acqs[tok].phase == phase
  }

  lemma AtWithout<L>(acqs: Acquisitions<L>, tok: Token, id: string, mode: Mode, phase: Phase)
    ensures |At(acqs, id, mode, phase)| == |At(acqs - {tok}, id, mode, phase)| + One(Stands(acqs, tok, id, mode, phase))
  {
    assert At(acqs - {tok}, id, mode, phase) == At(acqs, id, mode, phase) - {tok};
    CountWithout(At(acqs, id, mode, phase), At(acqs - {tok}, id, mode, phase), tok);
  }

  /** One count changes by the one acquisition that changes. */
  lemma CountAt<L>(acqs: Acquisitions<L>, after: Acquisitions<L>, tok: Token, id: string, mode: Mode, phase: Phase)
    requires SameBut(acqs, after, tok)
    ensures |At(after, id, mode, phase)| - One(Stands(after, tok, id, mode, phase)) ==
            |At(acqs, id, mode, phase)| - One(Stands(acqs, tok, id, mode, phase))
  {
    AtWithout(acqs, tok, id, mode, phase);
    AtWithout(after, tok, id, mode, phase);
  }

  /** So do all that a record tells. */
  lemma CountsAt<L>(acqs: Acquisitions<L>, after: Acquisitions<L>, tok: Token, id: string)
    requires SameBut(acqs, after, tok)
    ensures |Users(after, id)| - One(tok in after && after[tok].id == id) == |Users(acqs, id)| - One(tok in acqs && acqs[tok].id == id)
    ensures forall mode, phase ::
              |At(after, id, mode, phase)| - One(Stands(after, tok, id, mode, phase)) ==
              |At(acqs, id, mode, phase)| - One(Stands(acqs, tok, id, mode, phase))
  {
    hide Users, At, Stands;
    UsersWithout(acqs, tok, id);
    UsersWithout(after, tok, id);
    forall mode, phase ensures |At(after, id, mode, phase)| - One(Stands(after, tok, id, mode, phase)) ==
                               |At(acqs, id, mode, phase)| - One(Stands(acqs, tok, id, mode, phase)) {
      CountAt(acqs, after, tok, id, mode, phase);
    }
  }

  /** An acquisition of another id is not a record's business. */
  lemma TellsElsewhere<L>(l: Lock, acqs: Acquisitions<L>, after: Acquisitions<L>, tok: Token, id: string)
    requires Tells(l, acqs, id) && SameBut(acqs, after, tok)
    requires (tok in acqs ==> acqs[tok].id != id) && (tok in after ==> after[tok].id != id)
    ensures Tells(l, after, id)
  {
    hide Users, At;
    CountsAt(acqs, after, tok, id);
  }

  lemma TellsAnnounced<L>(l: Lock, acqs: Acquisitions<L>, tok: Token, a: Acquisition<L>)
    requires Tells(l, acqs, a.id) && tok !in acqs && a.phase.Announced?
    ensures Tells(l.(refs := l.refs + 1), acqs[tok := a], a.id)
  {
    hide Users, At;
    CountsAt(acqs, acqs[tok := a], tok, a.id);
  }

  lemma TellsArrived<L>(l: Lock, acqs: Acquisitions<L>, tok: Token)
    requires tok in acqs && acqs[tok].mode.Reading? && acqs[tok].phase.Announced? && Tells(l, acqs, acqs[tok].id)
    ensures Tells(Arrived(l), acqs[tok := acqs[tok].(phase := if Open(l) then Holding else Blocked)], acqs[tok].id)
  {
    hide Users, At;
    CountsAt(acqs, acqs[tok := acqs[tok].(phase := if Open(l) then Holding else Blocked)], tok, acqs[tok].id);
  }

  lemma TellsClaimed<L>(l: Lock, acqs: Acquisitions<L>, tok: Token)
    requires tok in acqs && acqs[tok].mode.Writing? && acqs[tok].phase.Announced? && Tells(l, acqs, acqs[tok].id) && Open(l)
    ensures Tells(Claimed(l), acqs[tok := acqs[tok].(phase := Pending)], acqs[tok].id)
  {
    hide Users, At;
    CountsAt(acqs, acqs[tok := acqs[tok].(phase := Pending)], tok, acqs[tok].id);
  }

  lemma TellsTaken<L>(l: Lock, acqs: Acquisitions<L>, tok: Token)
    requires tok in acqs && acqs[tok].mode.Writing? && acqs[tok].phase.Pending? && Tells(l, acqs, acqs[tok].id) && Free(l)
    ensures Tells(Taken(l), acqs[tok := acqs[tok].(phase := Holding)], acqs[tok].id)
  {
    hide Users, At;
    CountsAt(acqs, acqs[tok := acqs[tok].(phase := Holding)], tok, acqs[tok].id);
  }

  /** A holder is told of. */
  lemma HolderIsTold<L>(l: Lock, acqs: Acquisitions<L>, tok: Token)
    requires tok in acqs && acqs[tok].phase.Holding? && Tells(l, acqs, acqs[tok].id)
    ensures Held(l, acqs[tok].mode)
  {
    assert tok in At(acqs, acqs[tok].id, acqs[tok].mode, Holding);
  }

  predicate AllProper<L(==)>(acqs: Acquisitions<L>) {
    forall k :: k in acqs ==> Proper(acqs[k])
  }

  /** The unlock of a writer makes holders of the readers it blocked and changes nothing else. */
  lemma UnblockedCounts<L>(acqs: Acquisitions<L>, id: string)
    requires AllProper(acqs)
    ensures var t := Unblocked(acqs, id);
            && Users(t, id) == Users(acqs, id) && At(t, id, Reading, Blocked) == {}
            && |At(t, id, Reading, Holding)| == |At(acqs, id, Reading, Holding)| + |At(acqs, id, Reading, Blocked)|
            && At(t, id, Writing, Holding) == At(acqs, id, Writing, Holding)
            && At(t, id, Writing, Pending) == At(acqs, id, Writing, Pending)
  {
    hide AllProper;
    UnblockedReaders(acqs, id);
    assert Users(Unblocked(acqs, id), id) == Users(acqs, id) by { hide At; }
    UnblockedWriters(acqs, id, Holding);
    UnblockedWriters(acqs, id, Pending);
  }

  lemma UnblockedReaders<L>(acqs: Acquisitions<L>, id: string)
    ensures var t := Unblocked(acqs, id);
            && At(t, id, Reading, Blocked) == {}
            && |At(t, id, Reading, Holding)| == |At(acqs, id, Reading, Holding)| + |At(acqs, id, Reading, Blocked)|
  {
    var t := Unblocked(acqs, id);
    var held, blocked := At(acqs, id, Reading, Holding), At(acqs, id, Reading, Blocked);
    assert held !! blocked;
    assert At(t, id, Reading, Holding) == held + blocked;
  }

  lemma UnblockedWriters<L>(acqs: Acquisitions<L>, id: string, phase: Phase)
    requires AllProper(acqs)
    ensures At(Unblocked(acqs, id), id, Writing, phase) == At(acqs, id, Writing, phase)
  {
  }

  lemma UnblockedElsewhere<L>(l: Lock, acqs: Acquisitions<L>, id: string, other: string)
    requires id != other && Tells(l, acqs, other)
    ensures Tells(l, Unblocked(acqs, id), other)
  {
    var t := Unblocked(acqs, id);
    assert Users(t, other) == Users(acqs, other);
    forall mode, phase ensures At(t, other, mode, phase) == At(acqs, other, mode, phase) {}
    hide Users, At, Unblocked;
  }

  lemma TellsReaderLeft<L>(l: Lock, acqs: Acquisitions<L>, tok: Token)
    requires tok in acqs && acqs[tok].phase.Holding? && acqs[tok].mode.Reading? && Tells(l, acqs, acqs[tok].id) && Held(l, Reading)
    ensures Tells(Left(l, Reading), acqs - {tok}, acqs[tok].id)
  {
    hide Users, At;
    CountsAt(acqs, acqs - {tok}, tok, acqs[tok].id);
  }

  lemma TellsWriterLeft<L>(l: Lock, acqs: Acquisitions<L>, tok: Token)
    requires AllProper(acqs) && tok in acqs && acqs[tok].phase.Holding? && acqs[tok].mode.Writing?
    requires Tells(l, acqs, acqs[tok].id) && Held(l, Writing)
    ensures Tells(Left(l, Writing), Unblocked(acqs, acqs[tok].id) - {tok}, acqs[tok].id)
  {
    var id := acqs[tok].id;
    var t := Unblocked(acqs, id);
    assert t[tok] == acqs[tok];
    hide Users, At, Unblocked;
    UnblockedCounts(acqs, id);
    CountsAt(t, t - {tok}, tok, id);
  }

  lemma TellsReleased<L>(l: Lock, acqs: Acquisitions<L>, tok: Token)
    requires AllProper(acqs) && tok in acqs && acqs[tok].phase.Holding? && Tells(l, acqs, acqs[tok].id)
    ensures Held(l, acqs[tok].mode) && Tells(Left(l, acqs[tok].mode), Released(acqs, tok), acqs[tok].id)
  {
    HolderIsTold(l, acqs, tok);
    hide Tells, Unblocked;
    if acqs[tok].mode.Reading? {
      TellsReaderLeft(l, acqs, tok);
    } else {
      TellsWriterLeft(l, acqs, tok);
    }
  }

  lemma ReleasedElsewhere<L>(l: Lock, acqs: Acquisitions<L>, tok: Token, other: string)
    requires tok in acqs && acqs[tok].id != other && Tells(l, acqs, other)
    ensures Tells(l, Released(acqs, tok), other)
  {
    var id := acqs[tok].id;
    var t := if acqs[tok].mode.Writing? then Unblocked(acqs, id) else acqs;
    assert t[tok].id == id;
    hide Tells, Unblocked;
    if acqs[tok].mode.Writing? {
      UnblockedElsewhere(l, acqs, id, other);
    }
    TellsElsewhere(l, t, t - {tok}, tok, other);
  }

  lemma TellsNothing<L>(s: State<L>, id: string)
    requires Shared(s) && id !in s.table.index
    ensures Tells(UNUSED, s.acqs, id)
  {
    assert Users(s.acqs, id) == {};
    forall mode, phase ensures At(s.acqs, id, mode, phase) == {} {}
  }

  lemma UserIsTold<L>(s: State<L>, tok: Token)
    requires Shared(s) && Indexed(s.table) && Told(s) && tok in s.acqs
    ensures s.acqs[tok].lock in s.table.locks && s.table.locks[s.acqs[tok].lock].refs > 0
    ensures Tells(s.table.locks[s.acqs[tok].lock], s.acqs, s.acqs[tok].id)
  {
    assert tok in Users(s.acqs, s.acqs[tok].id);
  }

  /** A record nobody refers to is as new. */
  lemma TellsNobody<L>(l: Lock, acqs: Acquisitions<L>, id: string)
    requires Tells(l, acqs, id) && l.refs <= 0
    ensures l == UNUSED && forall k :: k in acqs ==> acqs[k].id != id
  {
    assert Users(acqs, id) == {};
    forall mode, phase ensures At(acqs, id, mode, phase) == {} {
      assert At(acqs, id, mode, phase) <= Users(acqs, id);
    }
    forall k | k in acqs ensures acqs[k].id != id {
      assert k !in Users(acqs, id);
    }
  }

  lemma EnterKeepsIndexed<L>(t: Table<L>, id: string, spare: L)
    requires Indexed(t) && spare !in t.locks
    ensures Indexed(Enter(t, id, spare))
  {
    var u := Enter(t, id, spare);
    if id !in t.index {
      assert u.index[id] == spare;
      forall l | l in t.index.Values ensures l in u.index.Values {
        var k :| k in t.index && t.index[k] == l;
        assert k in u.index && u.index[k] == l;
      }
    }
  }

  lemma LeaveKeepsIndexed<L>(t: Table<L>, id: string, mode: Mode)
    requires Indexed(t) && Leave(t, id, mode).Done?
    requires var left := Left(t.locks[t.index[id]], mode); if left.refs == 0 then left == UNUSED else left.refs > 0
    ensures Indexed(Leave(t, id, mode).table)
  {
    var u := Leave(t, id, mode).table;
    if id !in u.index {
      forall l | l in t.index.Values && l != t.index[id] ensures l in u.index.Values {
        var k :| k in t.index && t.index[k] == l;
        assert k in u.index && u.index[k] == l;
      }
    }
  }

  // ---------------------------------------------------------------- every step

  lemma AnnounceKeepsShared<L>(s: State<L>, step: Step<L>)
    requires Shared(s) && Enabled(s, step) && step.Announce?
    ensures Shared(Apply(s, step))
  {
  }

  lemma AnnounceKeepsTold<L>(s: State<L>, step: Step<L>)
    requires Shared(s) && Indexed(s.table) && Told(s) && Enabled(s, step) && step.Announce? && Indexed(Apply(s, step).table)
    ensures Told(Apply(s, step))
  {
    hide Tells, Shared;
    var t, u := Apply(s, step), Looked(s.table, step.id, step.spare);
    forall id | id in t.table.index ensures Tells(t.table.locks[t.table.index[id]], t.acqs, id) {
      if id == step.id {
        if id !in s.table.index {
          TellsNothing(s, id);
        }
        TellsAnnounced(u.locks[u.index[id]], s.acqs, step.tok, t.acqs[step.tok]);
      } else {
        TellsElsewhere(s.table.locks[s.table.index[id]], s.acqs, t.acqs, step.tok, id);
      }
    }
  }

  lemma AnnounceKeepsInv<L>(s: State<L>, step: Step<L>)
    requires Inv(s) && Enabled(s, step) && step.Announce?
    ensures Inv(Apply(s, step))
  {
    hide Told, Shared, Indexed;
    EnterKeepsIndexed(s.table, step.id, step.spare);
    AnnounceKeepsShared(s, step);
    AnnounceKeepsTold(s, step);
  }

  /** An acquisition that moves on at its record keeps the invariant, if its record goes on telling of it. */
  lemma MovedKeepsInv<L>(s: State<L>, tok: Token, phase: Phase, l: Lock)
    requires Inv(s) && tok in s.acqs && Proper(s.acqs[tok].(phase := phase))
    requires l.refs > 0 && Tells(l, s.acqs[tok := s.acqs[tok].(phase := phase)], s.acqs[tok].id)
    ensures Inv(Moved(s, tok, phase, l))
  {
    hide Tells;
    var t := Moved(s, tok, phase, l);
    forall id | id in t.table.index ensures Tells(t.table.locks[t.table.index[id]], t.acqs, id) {
      if id != s.acqs[tok].id {
        TellsElsewhere(s.table.locks[s.table.index[id]], s.acqs, t.acqs, tok, id);
      }
    }
  }

  lemma MutexKeepsInv<L>(s: State<L>, step: Step<L>)
    requires Inv(s) && Enabled(s, step) && (step.Arrive? || step.Claim? || step.Acquire?)
    ensures Inv(Apply(s, step))
  {
    var l := s.table.locks[s.acqs[step.tok].lock];
    UserIsTold(s, step.tok);
    hide Tells, Shared, Indexed, Told;
    match step
    case Arrive(tok) =>
      TellsArrived(l, s.acqs, tok);
      MovedKeepsInv(s, tok, if Open(l) then Holding else Blocked, Arrived(l));
    case Claim(tok) =>
      TellsClaimed(l, s.acqs, tok);
      MovedKeepsInv(s, tok, Pending, Claimed(l));
    case Acquire(tok) =>
      TellsTaken(l, s.acqs, tok);
      MovedKeepsInv(s, tok, Holding, Taken(l));
  }

  /** A holder's unlock finds the record it holds, and is no error. */
  lemma ReleaseSucceeds<L>(s: State<L>, tok: Token)
    requires Inv(s) && Enabled(s, Step<L>.Release(tok))
    ensures var a, t := s.acqs[tok], Apply(s, Step<L>.Release(tok));
            && t.acqs == Released(s.acqs, tok) && !t.failed && Leave(s.table, a.id, a.mode) == Done(t.table)
            && a.lock in s.table.locks && Held(s.table.locks[a.lock], a.mode)
            && t.table.locks == s.table.locks[a.lock := Left(s.table.locks[a.lock], a.mode)]
  {
    UserIsTold(s, tok);
    hide Tells, Unblocked;
    TellsReleased(s.table.locks[s.acqs[tok].lock], s.acqs, tok);
  }

  lemma ReleasedIds<L>(acqs: Acquisitions<L>, tok: Token)
    requires tok in acqs && AllProper(acqs)
    ensures var t := Released(acqs, tok);
            t.Keys == acqs.Keys - {tok} && AllProper(t)
            && forall k :: k in t ==> t[k].id == acqs[k].id && t[k].lock == acqs[k].lock && t[k].mode == acqs[k].mode
  {
  }

  lemma ReleaseKeepsInv<L>(s: State<L>, step: Step<L>)
    requires Inv(s) && Enabled(s, step) && step.Release?
    ensures Inv(Apply(s, step))
  {
    hide Tells, Released;
    ReleaseSucceeds(s, step.tok);
    ReleasedIds(s.acqs, step.tok);
    var t, a := Apply(s, step), s.acqs[step.tok];
    UserIsTold(s, step.tok);
    TellsReleased(s.table.locks[a.lock], s.acqs, step.tok);
    var left := Left(s.table.locks[a.lock], a.mode);
    if left.refs == 0 {
      TellsNobody(left, t.acqs, a.id);
    }
    LeaveKeepsIndexed(s.table, a.id, a.mode);
    forall id | id in t.table.index ensures Tells(t.table.locks[t.table.index[id]], t.acqs, id) {
      if id != a.id {
        ReleasedElsewhere(s.table.locks[s.table.index[id]], s.acqs, step.tok, id);
      }
    }
  }

  lemma StepKeepsInv<L>(s: State<L>, step: Step<L>)
    requires Inv(s) && Enabled(s, step)
    ensures Inv(Apply(s, step))
  {
    match step
    case Announce(_, _, _, _) => AnnounceKeepsInv(s, step);
    case Release(_) => ReleaseKeepsInv(s, step);
    case _ => MutexKeepsInv(s, step);
  }

  // ---------------------------------------------------------------- runs

  ghost predicate Run<L>(s: State<L>, steps: seq<Step<L>>)
    decreases |steps|
  {
    steps == [] || (Enabled(s, steps[0]) && Run(Apply(s, steps[0]), steps[1..]))
  }

  ghost function After<L>(s: State<L>, steps: seq<Step<L>>): State<L>
    requires Run(s, steps)
    decreases |steps|
  {
    if steps == [] then s else After(Apply(s, steps[0]), steps[1..])
  }

  predicate Holds<L(==)>(s: State<L>, tok: Token) {
    tok in s.acqs && s.acqs[tok].phase.Holding?
  }

  /** Whoever holds an id with someone else only reads. */
  lemma NoConflict<L>(s: State<L>, j: Token, k: Token)
    requires Inv(s) && Holds(s, j) && Holds(s, k) && j != k && s.acqs[j].id == s.acqs[k].id
    ensures s.acqs[j].mode.Reading? && s.acqs[k].mode.Reading?
  {
    UserIsTold(s, j);
    hide Shared, Indexed, Told;
    HoldersAgree(s.table.locks[s.acqs[j].lock], s.acqs, j, k);
  }

  lemma HoldersAgree<L>(l: Lock, acqs: Acquisitions<L>, j: Token, k: Token)
    requires j in acqs && k in acqs && j != k && acqs[j].id == acqs[k].id && Tells(l, acqs, acqs[j].id)
    requires acqs[j].phase.Holding? && acqs[k].phase.Holding?
    ensures acqs[j].mode.Reading? && acqs[k].mode.Reading?
  {
    var id, mode := acqs[j].id, acqs[j].mode;
    HolderIsTold(l, acqs, j);
    HolderIsTold(l, acqs, k);
    if mode == acqs[k].mode {
      assert {j, k} <= At(acqs, id, mode, Holding);
      hide At, Users;
      assert |{j, k}| == 2;
      Smaller({j, k}, At(acqs, id, mode, Holding));
    }
  }

  /** In every interleaving in which only holders unlock: no unlock is a misuse, at most one writer holds an id and
      never beside a reader, the references of an id are its users, who all share the record in the map, an id is in
      the map exactly while someone uses it, and dropped records are as new. */
  lemma EveryRunIsSafe<L>(steps: seq<Step<L>>)
    requires Run(Initial(), steps)
    ensures var s := After(Initial(), steps);
            && !s.failed && Inv(s)
            && (forall j, k :: Holds(s, j) && Holds(s, k) && j != k && s.acqs[j].id == s.acqs[k].id
                               ==> s.acqs[j].mode == s.acqs[k].mode == Reading)
            && (forall id :: id in s.table.index <==> Users(s.acqs, id) != {})
            && (forall id :: id in s.table.index ==> s.table.locks[s.table.index[id]].refs == |Users(s.acqs, id)|)
            && (s.acqs == map[] ==> s.table.index == map[])
  {
    RunKeepsInv(Initial(), steps);
    var s := After(Initial(), steps);
    forall j, k | Holds(s, j) && Holds(s, k) && j != k && s.acqs[j].id == s.acqs[k].id
      ensures s.acqs[j].mode == s.acqs[k].mode == Reading
    {
      NoConflict(s, j, k);
    }
    forall id ensures id in s.table.index <==> Users(s.acqs, id) != {} {
      InUse(s, id);
    }
    if s.table.index != map[] {
      var id :| id in s.table.index;
      assert Users(s.acqs, id) != {};
    }
  }

  lemma InUse<L>(s: State<L>, id: string)
    requires Inv(s)
    ensures id in s.table.index <==> Users(s.acqs, id) != {}
  {
    if id in s.table.index {
      assert s.table.index[id] in s.table.index.Values;
      assert Tells(s.table.locks[s.table.index[id]], s.acqs, id);
    } else {
      forall k ensures k !in Users(s.acqs, id) {}
    }
  }

  lemma {:induction false} RunKeepsInv<L>(s: State<L>, steps: seq<Step<L>>)
    requires Inv(s) && Run(s, steps)
    ensures Inv(After(s, steps))
    decreases |steps|
  {
    hide Inv, Apply, Enabled;
    if steps != [] {
      StepKeepsInv(s, steps[0]);
      RunKeepsInv(Apply(s, steps[0]), steps[1..]);
    }
  }

  /** The calls of Lock and RLock not yet answered by an unlock, with what they ask for. */
  type Requests = map<Token, (string, Mode)>

  function Requested<L>(asked: Requests, step: Step<L>): Requests {
    match step
    case Announce(tok, id, mode, _) => asked[tok := (id, mode)]
    case Release(tok) => asked - {tok}
    case _ => asked
  }

  function AllRequested<L>(asked: Requests, steps: seq<Step<L>>): Requests
    decreases |steps|
  {
    if steps == [] then asked else AllRequested(Requested(asked, steps[0]), steps[1..])
  }

  /** Every acquisition is for the id and the mode asked for. */
  predicate AsRequested<L(==)>(acqs: Acquisitions<L>, asked: Requests) {
    acqs.Keys == asked.Keys && forall k :: k in acqs ==> (acqs[k].id, acqs[k].mode) == asked[k]
  }

  lemma ReleaseAsRequested<L>(s: State<L>, asked: Requests, tok: Token)
    requires Inv(s) && Enabled(s, Step<L>.Release(tok)) && AsRequested(s.acqs, asked)
    ensures AsRequested(Apply(s, Step<L>.Release(tok)).acqs, asked - {tok})
  {
    hide Indexed, Told, Apply, Released;
    ReleaseSucceeds(s, tok);
    ReleasedIds(s.acqs, tok);
  }

  lemma StepAsRequested<L>(s: State<L>, asked: Requests, step: Step<L>)
    requires Inv(s) && Enabled(s, step) && AsRequested(s.acqs, asked)
    ensures AsRequested(Apply(s, step).acqs, Requested(asked, step))
  {
    hide Inv;
    if step.Release? {
      ReleaseAsRequested(s, asked, step.tok);
    }
  }

  lemma {:induction false} RunAsRequested<L>(s: State<L>, asked: Requests, steps: seq<Step<L>>)
    requires Inv(s) && Run(s, steps) && AsRequested(s.acqs, asked)
    ensures AsRequested(After(s, steps).acqs, AllRequested(asked, steps))
    decreases |steps|
  {
    hide Inv, Apply, Enabled, AsRequested, Requested;
    if steps != [] {
      StepKeepsInv(s, steps[0]);
      StepAsRequested(s, asked, steps[0]);
      RunAsRequested(Apply(s, steps[0]), Requested(asked, steps[0]), steps[1..]);
    }
  }

  /** In every run the acquisitions are the calls not yet unlocked, each for the id and the mode it asked for. */
  lemma EveryRunIsAsRequested<L>(steps: seq<Step<L>>)
    requires Run(Initial(), steps)
    ensures AsRequested(After(Initial(), steps).acqs, AllRequested(map[], steps))
  {
    RunAsRequested(Initial<L>(), map[], steps);
  }

  predicate Exclusive<L(==)>(acqs: Acquisitions<L>) {
    forall j, k :: j in acqs && k in acqs && acqs[j].phase.Holding? && acqs[k].phase.Holding? && acqs[j].id == acqs[k].id ==> j == k
  }

  predicate AllWriters<L(==)>(acqs: Acquisitions<L>) {
    forall k :: k in acqs ==> acqs[k].mode.Writing?
  }

  lemma StepKeepsWriters<L>(s: State<L>, step: Step<L>)
    requires AllWriters(s.acqs) && Enabled(s, step) && (step.Announce? ==> step.mode == Writing)
    ensures AllWriters(Apply(s, step).acqs)
  {
  }

  /** The plain locker, whose every acquisition is for writing, lets one holder in at a time. */
  lemma {:induction false} WritersExclude<L>(s: State<L>, steps: seq<Step<L>>)
    requires Inv(s) && Run(s, steps) && AllWriters(s.acqs)
    requires forall i :: 0 <= i < |steps| && steps[i].Announce? ==> steps[i].mode == Writing
    ensures Exclusive(After(s, steps).acqs)
    decreases |steps|
  {
    if steps == [] {
      forall j, k | Holds(s, j) && Holds(s, k) && j != k && s.acqs[j].id == s.acqs[k].id ensures false {
        NoConflict(s, j, k);
      }
    } else {
      hide Inv, Exclusive, AllWriters, Apply, Enabled;
      StepKeepsInv(s, steps[0]);
      StepKeepsWriters(s, steps[0]);
      WritersExclude(Apply(s, steps[0]), steps[1..]);
    }
  }

  // ---------------------------------------------------------------- who goes ahead

  /** A writer of the id holds it, or has its turn. */
  ghost predicate WriterThere<L>(s: State<L>, id: string) {
    exists k :: k in s.acqs && s.acqs[k].id == id && s.acqs[k].mode.Writing? && (s.acqs[k].phase.Holding? || s.acqs[k].phase.Pending?)
  }

  ghost predicate SomeoneHolds<L>(s: State<L>, id: string, mode: Mode) {
    exists k :: Holds(s, k) && s.acqs[k].id == id && s.acqs[k].mode == mode
  }

  /** What the record of an id says of its users. */
  lemma RecordSays<L>(s: State<L>, tok: Token)
    requires Inv(s) && tok in s.acqs
    ensures var id, l := s.acqs[tok].id, s.table.locks[s.table.index[s.acqs[tok].id]];
            && (Open(l) <==> !WriterThere(s, id)) && (l.writer <==> SomeoneHolds(s, id, Writing))
            && (l.readers > 0 <==> SomeoneHolds(s, id, Reading))
  {
    AtSays(s, s.acqs[tok].id);
  }

  lemma AtSays<L>(s: State<L>, id: string)
    requires Inv(s) && id in s.table.index
    ensures var l := s.table.locks[s.table.index[id]];
            && (Open(l) <==> !WriterThere(s, id)) && (l.writer <==> SomeoneHolds(s, id, Writing))
            && (l.readers > 0 <==> SomeoneHolds(s, id, Reading))
            && (l.pending <==> At(s.acqs, id, Writing, Pending) != {}) && (l.blocked > 0 <==> At(s.acqs, id, Reading, Blocked) != {})
  {
    assert Tells(s.table.locks[s.table.index[id]], s.acqs, id);
    forall k | k in s.acqs && s.acqs[k].id == id ensures k in At(s.acqs, id, s.acqs[k].mode, s.acqs[k].phase) {}
    forall mode, phase | At(s.acqs, id, mode, phase) != {}
      ensures exists k :: k in s.acqs && s.acqs[k].id == id && s.acqs[k].mode == mode && s.acqs[k].phase == phase
    {
      var k :| k in At(s.acqs, id, mode, phase);
      assert k in s.acqs;
    }
  }

  /** A reader that comes to the mutex goes ahead if and only if no writer of the same id holds it or is pending. */
  lemma ReaderGoesAhead<L>(s: State<L>, tok: Token)
    requires Inv(s) && tok in s.acqs && s.acqs[tok].mode.Reading? && s.acqs[tok].phase.Announced?
    ensures Enabled(s, Step<L>.Arrive(tok))
    ensures Apply(s, Step<L>.Arrive(tok)).acqs[tok].phase == if WriterThere(s, s.acqs[tok].id) then Blocked else Holding
  {
    UserIsTold(s, tok);
    RecordSays(s, tok);
  }

  /** A blocked reader goes ahead with the unlock of a writer of the same id, and with no other step. */
  lemma BlockedUntilWriterUnlocks<L>(s: State<L>, tok: Token, step: Step<L>)
    requires Inv(s) && tok in s.acqs && s.acqs[tok].phase.Blocked? && Enabled(s, step)
    ensures var t := Apply(s, step);
            && tok in t.acqs
            && t.acqs[tok].phase == if step.Release? && s.acqs[step.tok].mode.Writing? && s.acqs[step.tok].id == s.acqs[tok].id then Holding
                                    else Blocked
  {
    hide Inv;
    if step.Release? {
      ReleaseSucceeds(s, step.tok);
    }
  }

  /** A writer has its turn if and only if no writer of the same id holds or has it. */
  lemma WriterHasItsTurn<L>(s: State<L>, tok: Token)
    requires Inv(s) && tok in s.acqs && s.acqs[tok].mode.Writing? && s.acqs[tok].phase.Announced?
    ensures Enabled(s, Step<L>.Claim(tok)) <==> !WriterThere(s, s.acqs[tok].id)
  {
    UserIsTold(s, tok);
    RecordSays(s, tok);
  }

  /** A writer whose turn it is goes ahead if and only if no reader of the same id holds it. */
  lemma WriterGoesAhead<L>(s: State<L>, tok: Token)
    requires Inv(s) && tok in s.acqs && s.acqs[tok].phase.Pending?
    ensures Enabled(s, Step<L>.Acquire(tok)) <==> !SomeoneHolds(s, s.acqs[tok].id, Reading)
    ensures !SomeoneHolds(s, s.acqs[tok].id, Writing)
  {
    UserIsTold(s, tok);
    RecordSays(s, tok);
    assert tok in At(s.acqs, s.acqs[tok].id, Writing, Pending);
  }

  /** Whoever calls it, an unlock is right if and only if someone holds the id in that mode, and a fatal error if
      and only if nobody does and, further, no writer is pending (for Unlock) or no reader is blocked (for RUnlock). */
  lemma UnlockComesTo<L>(s: State<L>, id: string, mode: Mode)
    requires Inv(s)
    ensures Leave(s.table, id, mode).Done? <==> SomeoneHolds(s, id, mode)
    ensures Leave(s.table, id, mode).Fatal? <==>
            !SomeoneHolds(s, id, mode)
            && (if mode.Writing? then At(s.acqs, id, Writing, Pending) else At(s.acqs, id, Reading, Blocked)) == {}
  {
    if id in s.table.index {
      AtSays(s, id);
    } else {
      InUse(s, id);
      assert At(s.acqs, id, Writing, Pending) <= Users(s.acqs, id) && At(s.acqs, id, Reading, Blocked) <= Users(s.acqs, id);
      forall k ensures !(Holds(s, k) && s.acqs[k].id == id) {
        assert k !in Users(s.acqs, id);
      }
    }
  }

  /** A misuse that goes unnoticed: Unlock while a reader holds and a writer is pending. */
  lemma UnlockUnderPendingWriter()
    ensures var steps: seq<Step<nat>> := [Announce(0, "a", Reading, 7), Arrive(0), Announce(1, "a", Writing, 8), Claim(1)];
            Run(Initial(), steps) && Leave(After(Initial(), steps).table, "a", Writing) == Unnoticed
  {
    var steps: seq<Step<nat>> := [Announce(0, "a", Reading, 7), Arrive(0), Announce(1, "a", Writing, 8), Claim(1)];
    var s0: State<nat> := Initial();
    var s1 := Apply(s0, steps[0]);
    var s2 := Apply(s1, steps[1]);
    var s3 := Apply(s2, steps[2]);
    var s4 := Apply(s3, steps[3]);
    assert s4.table.index["a"] == 7 && s4.table.locks[7] == Lock(false, true, 1, 0, 2);
    assert steps[1..][1..] == steps[2..] && steps[2..][1..] == [steps[3]] && [steps[3]][1..] == [];
    assert Run(s4, []) && After(s4, []) == s4;
    assert Run(s3, [steps[3]]) && After(s3, [steps[3]]) == s4;
    assert Run(s2, steps[2..]) && After(s2, steps[2..]) == s4;
    assert Run(s1, steps[1..]) && After(s1, steps[1..]) == s4;
  }

  /** And RUnlock while a writer holds and a reader is blocked. */
  lemma RUnlockUnderWriter()
    ensures var steps: seq<Step<nat>> := [Announce(0, "a", Writing, 7), Claim(0), Acquire(0), Announce(1, "a", Reading, 8), Arrive(1)];
            Run(Initial(), steps) && Leave(After(Initial(), steps).table, "a", Reading) == Unnoticed
  {
    var steps: seq<Step<nat>> := [Announce(0, "a", Writing, 7), Claim(0), Acquire(0), Announce(1, "a", Reading, 8), Arrive(1)];
    var s0: State<nat> := Initial();
    var s1 := Apply(s0, steps[0]);
    var s2 := Apply(s1, steps[1]);
    var s3 := Apply(s2, steps[2]);
    var s4 := Apply(s3, steps[3]);
    var s5 := Apply(s4, steps[4]);
    assert s5.table.index["a"] == 7 && s5.table.locks[7] == Lock(true, false, 0, 1, 2);
    assert steps[1..][1..] == steps[2..] && steps[2..][1..] == steps[3..] && steps[3..][1..] == [steps[4]] && [steps[4]][1..] == [];
    assert Run(s5, []) && After(s5, []) == s5;
    assert Run(s4, [steps[4]]) && After(s4, [steps[4]]) == s5;
    assert Run(s3, steps[3..]) && After(s3, steps[3..]) == s5;
    assert Run(s2, steps[2..]) && After(s2, steps[2..]) == s5;
    assert Run(s1, steps[1..]) && After(s1, steps[1..]) == s5;
  }

  // ---------------------------------------------------------------- progress

  /** While an id has users one of them can move: a holder unlocks; else the writer whose turn it is holds; else
      nobody is blocked, a reader holds on arrival, and a writer has its turn. */
  lemma NobodyIsStranded<L>(s: State<L>, tok: Token)
    requires Inv(s) && tok in s.acqs
    ensures exists step: Step<L> :: !step.Announce? && Enabled(s, step) && s.acqs[step.tok].id == s.acqs[tok].id
  {
    var id := s.acqs[tok].id;
    if k :| Holds(s, k) && s.acqs[k].id == id {
      assert Enabled(s, Step<L>.Release(k));
    } else if k :| k in s.acqs && s.acqs[k].id == id && s.acqs[k].phase.Pending? {
      WriterGoesAhead(s, k);
      assert Enabled(s, Step<L>.Acquire(k));
    } else {
      NobodyIsBlocked(s, tok);
      if s.acqs[tok].mode.Reading? {
        ReaderGoesAhead(s, tok);
        assert Enabled(s, Step<L>.Arrive(tok));
      } else {
        WriterHasItsTurn(s, tok);
        assert Enabled(s, Step<L>.Claim(tok));
      }
    }
  }

  lemma NobodyIsBlocked<L>(s: State<L>, tok: Token)
    requires Inv(s) && tok in s.acqs && !WriterThere(s, s.acqs[tok].id)
    ensures !s.acqs[tok].phase.Blocked?
  {
    RecordSays(s, tok);
    assert tok in At(s.acqs, s.acqs[tok].id, s.acqs[tok].mode, s.acqs[tok].phase);
    assert Tells(s.table.locks[s.acqs[tok].lock], s.acqs, s.acqs[tok].id);
  }

  function Waiters<L(==)>(acqs: Acquisitions<L>): set<Token> {
    set k | k in acqs && !acqs[k].phase.Holding?
  }

  function Newcomers<L(==)>(acqs: Acquisitions<L>): set<Token> {
    set k | k in acqs && acqs[k].phase.Announced?
  }

  /** At least the steps left to take: an acquisition comes to the mutex, holds, and goes. */
  function Todo<L(==)>(acqs: Acquisitions<L>): nat {
    |acqs.Keys| + |Waiters(acqs)| + |Newcomers(acqs)|
  }

  lemma TodoShrinks<L>(acqs: Acquisitions<L>, after: Acquisitions<L>, tok: Token)
    requires after.Keys <= acqs.Keys && Waiters(after) <= Waiters(acqs) && Newcomers(after) <= Newcomers(acqs)
    requires (tok in acqs && tok !in after) || (tok in Waiters(acqs) && tok !in Waiters(after))
             || (tok in Newcomers(acqs) && tok !in Newcomers(after))
    ensures Todo(after) < Todo(acqs)
  {
    hide Waiters, Newcomers;
    Lessened(after.Keys, acqs.Keys, tok);
    Lessened(Waiters(after), Waiters(acqs), tok);
    Lessened(Newcomers(after), Newcomers(acqs), tok);
  }

  lemma Lessened<T>(a: set<T>, b: set<T>, x: T)
    requires a <= b
    ensures |a| <= |b| && (x in b && x !in a ==> |a| < |b|)
  {
    Smaller(a, b);
    if x in b && x !in a {
      Smaller(a, b - {x});
    }
  }

  lemma MovingTakesOne<L>(acqs: Acquisitions<L>, tok: Token, phase: Phase)
    requires tok in acqs && !acqs[tok].phase.Holding? && !phase.Announced? && (acqs[tok].phase.Announced? || phase.Holding?)
    ensures Todo(acqs[tok := acqs[tok].(phase := phase)]) < Todo(acqs)
  {
    TodoShrinks(acqs, acqs[tok := acqs[tok].(phase := phase)], tok);
  }

  lemma ReleaseTakesOne<L>(acqs: Acquisitions<L>, tok: Token)
    requires tok in acqs
    ensures Todo(Released(acqs, tok)) < Todo(acqs)
  {
    TodoShrinks(acqs, Released(acqs, tok), tok);
  }

  lemma StepTakesOne<L>(s: State<L>, step: Step<L>)
    requires Inv(s) && Enabled(s, step) && !step.Announce?
    ensures Todo(Apply(s, step).acqs) < Todo(s.acqs)
  {
    hide Todo, Released, Shared, Indexed, Told;
    match step
    case Arrive(tok) => MovingTakesOne(s.acqs, tok, if Open(s.table.locks[s.acqs[tok].lock]) then Holding else Blocked);
    case Claim(tok) => MovingTakesOne(s.acqs, tok, Pending);
    case Acquire(tok) => MovingTakesOne(s.acqs, tok, Holding);
    case Release(tok) =>
      ReleaseSucceeds(s, tok);
      ReleaseTakesOne(s.acqs, tok);
  }

  /** With no newcomers every step leaves fewer to take, so waiting ends: all take their lock and release it. */
  lemma {:induction false} RunsDrain<L>(s: State<L>, steps: seq<Step<L>>)
    requires Inv(s) && Run(s, steps) && forall i :: 0 <= i < |steps| ==> !steps[i].Announce?
    ensures |steps| + Todo(After(s, steps).acqs) <= Todo(s.acqs)
    decreases |steps|
  {
    hide Inv, Enabled, Apply, Todo;
    if steps != [] {
      StepTakesOne(s, steps[0]);
      StepKeepsInv(s, steps[0]);
      RunsDrain(Apply(s, steps[0]), steps[1..]);
    }
  }
}

/** The locker itself. */
module PartitionLocks {
  import opened KeyedLocks

  /** A record, with the state of its mutex. */
  class LockInfo {
    var writer: bool
    var pending: bool
    var readers: nat
    var blocked: nat
    var refs: int

    constructor ()
      ensures View() == UNUSED
    {
      writer, pending, readers, blocked, refs := false, false, 0, 0, 0;
    }

    ghost function View(): Lock
      reads this
    {
      Lock(writer, pending, readers, blocked, refs)
    }
  }

  datatype Result = Ok | Panics | Unnoticed

  /** PartitionRWLocker; PartitionLocker is the same text with the writing mode alone. */
  class PartitionRWLocker {
    var s: map<string, LockInfo>
    ghost var made: map<LockInfo, Lock>

    /** Every record made is as `made` tells. */
    ghost predicate Valid()
      reads this, made.Keys
    {
      s.Values <= made.Keys && forall li :: li in made ==> li.View() == made[li]
    }

    ghost function View(): Table<LockInfo>
      reads this
    {
      Table(s, made)
    }

    constructor ()
      ensures Valid() && View() == Table(map[], map[])
    {
      s, made := map[], map[];
    }

    method Info(id: string) returns (li: LockInfo, ghost spare: LockInfo)
      requires Valid()
      modifies this
      ensures Valid() && id in s && li == s[id] && View() == Looked(old(View()), id, spare)
      ensures id in old(s) || (fresh(li) && li == spare && li !in old(made))
      ensures made.Keys == old(made.Keys) + {li} && (id in old(s) ==> made == old(made))
    {
      if id in s {
        li := s[id];
        spare := li;
      } else {
        li := new LockInfo();
        spare := li;
        s, made := s[id := li], made[li := UNUSED];
      }
    }

    /** The region of Lock and RLock; the caller then goes to the mutex of li. */
    method Announce(id: string) returns (li: LockInfo, ghost spare: LockInfo)
      requires Valid()
      modifies this, made.Keys
      ensures Valid() && View() == Enter(old(View()), id, spare)
      ensures li == s[id] && (id in old(s) || (fresh(spare) && spare !in old(made)))
    {
      li, spare := Info(id);
      li.refs := li.refs + 1;
      made := made[li := made[li].(refs := li.refs)];
    }

    /** mu.RLock: held at once, or blocked until a writer unlocks. */
    method Arrive(li: LockInfo) returns (held: bool)
      requires Valid() && li in made
      modifies this, li
      ensures Valid() && held == Open(old(made)[li]) && View() == Table(old(s), old(made)[li := Arrived(old(made)[li])])
    {
      held := !li.writer && !li.pending;
      if held {
        li.readers := li.readers + 1;
      } else {
        li.blocked := li.blocked + 1;
      }
      made := made[li := li.View()];
    }

    /** mu.Lock up to the writer's turn, for which it waits. */
    method Claim(li: LockInfo)
      requires Valid() && li in made && Open(made[li])
      modifies this, li
      ensures Valid() && View() == Table(old(s), old(made)[li := Claimed(old(made)[li])])
    {
      li.pending := true;
      made := made[li := li.View()];
    }

    /** The rest of mu.Lock, which waits for the readers before it. */
    method Acquire(li: LockInfo)
      requires Valid() && li in made && Free(made[li])
      modifies this, li
      ensures Valid() && View() == Table(old(s), old(made)[li := Taken(old(made)[li])])
    {
      li.pending, li.writer := false, true;
      made := made[li := li.View()];
    }

    method Unlock(id: string) returns (r: Result)
      requires Valid()
      modifies this, made.Keys
      ensures match Leave(old(View()), id, Writing)
              case Fatal => r == Panics
              case Unnoticed => r == Result.Unnoticed
              case Done(t) => r == Ok && Valid() && View() == t
    {
      var li, _ := Info(id);
      if !li.writer {
        return if li.pending then Result.Unnoticed else Panics;
      }
      li.writer := false;
      li.readers, li.blocked := li.readers + li.blocked, 0;
      Dereference(id, li);
      return Ok;
    }

    method RUnlock(id: string) returns (r: Result)
      requires Valid()
      modifies this, made.Keys
      ensures match Leave(old(View()), id, Reading)
              case Fatal => r == Panics
              case Unnoticed => r == Result.Unnoticed
              case Done(t) => r == Ok && Valid() && View() == t
    {
      var li, _ := Info(id);
      if li.readers == 0 {
        return if li.blocked > 0 then Result.Unnoticed else Panics;
      }
      li.readers := li.readers - 1;
      Dereference(id, li);
      return Ok;
    }

    /** The end of Unlock and RUnlock. */
    method Dereference(id: string, li: LockInfo)
      requires id in s && s[id] == li && li in made && s.Values <= made.Keys
      requires forall k :: k in made && k != li ==> k.View() == made[k]
      modifies this, li`refs
      ensures Valid() && made == old(made)[li := li.View()] && li.View() == old(li.View()).(refs := old(li.refs) - 1)
      ensures s == if li.refs == 0 then old(s) - {id} else old(s)
    {
      li.refs := li.refs - 1;
      made := made[li := li.View()];
      if li.refs == 0 {
        s := s - {id};
      }
    }
  }
}
