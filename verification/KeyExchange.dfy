/** The public-key exchange over a shared directory (ssh_sync_nfs.py): `n` ranks, one file system call a step. */
module KeyExchange {

  type Rank = nat

  /** Where a rank is in main(). Reading holds the listed files still to be read and the keys read so far, Writing and
      Configuring also the ranks whose node info was found. */
  datatype Phase =
    | Creating | Filling | Noting | AtBarrier | Listing
    | Reading(todo: set<Rank>, got: set<string>)
    | Writing(lines: set<string>, hosts: set<Rank>)
    | Configuring(hosts: set<Rank>)
    | Signalling | AwaitingAll | Finished | Failed

  /** `keys` holds the contents of keys/rank_*.pub, `infos` the names in info/ and `done` those in done/; `auth` holds
      each rank's own authorized_keys, as the set of its lines, and `config` the ranks in its SSH config. */
  datatype Net = Net(keys: map<Rank, string>, infos: set<Rank>, barrier: bool, done: set<Rank>,
                     auth: map<Rank, set<string>>, config: map<Rank, set<Rank>>, phase: seq<Phase>)

  /** How many ranks, their public keys, and whether a file appears with its contents or empty, to be
      filled by later writes. */
  datatype Setup = Setup(n: nat, key: Rank -> string, atomic: bool)

  datatype Event =
    | Create(r: Rank)
    | Flush(r: Rank, len: nat)
    | Fill(r: Rank)
    | Note(r: Rank)
    | MakeBarrier
    | SeeBarrier(r: Rank)
    | List(r: Rank)
    | Read(r: Rank, q: Rank)
    | Collect(r: Rank)
    | Write(r: Rank)
    | Configure(r: Rank)
    | Signal(r: Rank)
    | SeeAll
    | Fail(r: Rank)

  function Start(c: Setup): Net {
    Net(map[], {}, false, {}, map[], map[], seq(c.n, _ => Creating))
  }

  predicate At(s: Net, r: Rank, p: Phase) {
    r < |s.phase| && s.phase[r] == p
  }

  predicate IsReading(s: Net, r: Rank) {
    r < |s.phase| && s.phase[r].Reading?
  }

  predicate Enabled(c: Setup, s: Net, e: Event) {
    match e
    case Create(r) => At(s, r, Creating)
    case Flush(r, len) => At(s, r, Filling) && len <= |c.key(r)|
    case Fill(r) => At(s, r, Filling)
    case Note(r) => At(s, r, Noting)
    case MakeBarrier => At(s, 0, AtBarrier) && |s.keys| >= c.n
    case SeeBarrier(r) => r != 0 && At(s, r, AtBarrier) && s.barrier
    case List(r) => At(s, r, Listing)
    case Read(r, q) => IsReading(s, r) && q in s.phase[r].todo && q in s.keys
    case Collect(r) => IsReading(s, r) && s.phase[r].todo == {}
    case Write(r) => r < |s.phase| && s.phase[r].Writing?
    case Configure(r) => r < |s.phase| && s.phase[r].Configuring?
    case Signal(r) => At(s, r, Signalling)
    case SeeAll => At(s, 0, AwaitingAll) && |s.done| >= c.n
    case Fail(r) => r < |s.phase|
  }

  /** The rank whose call it is; MakeBarrier and SeeAll are rank 0's. */
  function Caller(e: Event): Rank {
    if e.MakeBarrier? || e.SeeAll? then 0 else e.r
  }

  // The effect of a step, component by component.

  /** Where the calling rank goes. */
  function NextPhase(c: Setup, s: Net, e: Event): Phase
    requires Enabled(c, s, e)
  {
    match e
    case Create(_) => if c.atomic then Noting else Filling
    case Flush(_, _) => Filling
    case Fill(_) => Noting
    case Note(_) => AtBarrier
    case MakeBarrier => Listing
    case SeeBarrier(_) => Listing
    case List(_) => Reading(s.keys.Keys, {})
    case Read(r, q) => Reading(s.phase[r].todo - {q}, s.phase[r].got + {s.keys[q]})
    case Collect(r) => Writing(s.phase[r].got, s.infos)
    case Write(r) => Configuring(s.phase[r].hosts)
    case Configure(_) => Signalling
    case Signal(r) => if r == 0 then AwaitingAll else Finished
    case SeeAll => Finished
    case Fail(_) => Failed
  }

  function NextKeys(c: Setup, s: Net, e: Event): map<Rank, string>
    requires Enabled(c, s, e)
  {
    match e
    case Create(r) => s.keys[r := if c.atomic then c.key(r) else ""]
    case Flush(r, len) => s.keys[r := c.key(r)[..len]]
    case Fill(r) => s.keys[r := c.key(r)]
    case _ => s.keys
  }

  function Apply(c: Setup, s: Net, e: Event): Net
    requires Enabled(c, s, e)
  {
    Net(NextKeys(c, s, e),
        if e.Note? then s.infos + {e.r} else s.infos,
        s.barrier || e.MakeBarrier?,
        if e.Signal? then s.done + {e.r} else s.done,
        if e.Write? then s.auth[e.r := s.phase[e.r].lines] else s.auth,
        if e.Configure? then s.config[e.r := s.phase[e.r].hosts] else s.config,
        s.phase[Caller(e) := NextPhase(c, s, e)])
  }

  ghost predicate Runs(c: Setup, s: Net, es: seq<Event>)
    decreases |es|
  {
    es == [] || (Enabled(c, s, es[0]) && Runs(c, Apply(c, s, es[0]), es[1..]))
  }

  function After(c: Setup, s: Net, es: seq<Event>): Net
    requires Runs(c, s, es)
    decreases |es|
  {
    if es == [] then s else After(c, Apply(c, s, es[0]), es[1..])
  }

  ghost predicate Leads(c: Setup, s: Net, t: Net) {
    exists es :: Runs(c, s, es) && After(c, s, es) == t
  }

  ghost predicate Reachable(c: Setup, s: Net) {
    Leads(c, Start(c), s)
  }

  // ---------- what every step keeps ----------

  /** Has the rank written its own key file in full? A failed rank may have stopped half way. */
  predicate Published(p: Phase) {
    !p.Creating? && !p.Filling? && !p.Failed?
  }

  /** Has the rank written its node info? */
  predicate Noted(p: Phase) {
    Published(p) && !p.Noting?
  }

  predicate PastBarrier(p: Phase) {
    Noted(p) && !p.AtBarrier?
  }

  /** Has the rank signalled that it is done? */
  predicate Signalled(p: Phase) {
    p.AwaitingAll? || p.Finished?
  }

  /** What rank r can count on finding: its own file complete, and everyone's if writes are atomic. */
  predicate Trusted(c: Setup, r: Rank, q: Rank) {
    q < c.n && (c.atomic || q == r)
  }

  ghost predicate KeysFit(c: Setup, s: Net) {
    && (forall q :: q in s.keys ==> q < c.n && s.keys[q] <= c.key(q))
    && (forall q :: q in s.keys && c.atomic ==> s.keys[q] == c.key(q))
    && (s.barrier ==> forall q :: 0 <= q < c.n ==> q in s.keys)
  }

  ghost predicate FilesFit(c: Setup, s: Net) {
    && KeysFit(c, s)
    && (forall q :: q in s.auth ==> q < c.n) && (forall q :: q in s.infos ==> q < c.n)
    && (forall q :: q in s.done ==> q in s.auth && q in s.config)
  }

  /** A rank past Filling has written its key file in full. */
  ghost predicate FileFits(c: Setup, s: Net, r: Rank)
    requires r < |s.phase|
  {
    var p := s.phase[r];
    && (Published(p) ==> r in s.keys && s.keys[r] == c.key(r))
    && (p.Filling? ==> r in s.keys && !c.atomic)
  }

  /** ... one past Noting its node info, and one past the barrier has seen it. */
  predicate BarrierFits(s: Net, r: Rank)
    requires r < |s.phase|
  {
    (PastBarrier(s.phase[r]) ==> s.barrier) && (Noted(s.phase[r]) ==> r in s.infos)
  }

  /** ... and what a rank writes is there once it has gone on; rank 0 finishes when everyone is done. */
  predicate OutputFits(c: Setup, s: Net, r: Rank)
    requires r < |s.phase|
  {
    var p := s.phase[r];
    && (p.Configuring? || p.Signalling? ==> r in s.auth) && (p.Signalling? ==> r in s.config)
    && (Signalled(p) ==> r in s.done) && (p.AwaitingAll? ==> r == 0)
    && (r == 0 && p.Finished? ==> |s.done| >= c.n)
  }

  ghost predicate RankFits(c: Setup, s: Net, r: Rank)
    requires r < |s.phase|
  {
    FileFits(c, s, r) && BarrierFits(s, r) && OutputFits(c, s, r)
  }

  /** The lines of a rank that has read all files but those in `todo`. */
  ghost predicate LinesFit(c: Setup, r: Rank, todo: set<Rank>, lines: set<string>) {
    && (forall q :: Trusted(c, r, q) && q !in todo ==> c.key(q) in lines)
    && (forall x :: x in lines ==> FromSomeone(c, x))
  }

  /** A rank's SSH config lists ranks alone, and the rank itself. */
  predicate HostsFit(c: Setup, r: Rank, hosts: set<Rank>) {
    r in hosts && forall q :: q in hosts ==> q < c.n
  }

  /** A reader has every key it can count on from the files behind it. */
  ghost predicate ReaderFits(c: Setup, s: Net, r: Rank)
    requires r < |s.phase|
  {
    match s.phase[r]
    case Reading(todo, got) => LinesFit(c, r, todo, got) && todo <= s.keys.Keys
    case Writing(lines, hosts) => LinesFit(c, r, {}, lines) && HostsFit(c, r, hosts)
    case Configuring(hosts) => HostsFit(c, r, hosts)
    case _ => true
  }

  /** A line is the start of some rank's key. */
  ghost predicate FromSomeone(c: Setup, line: string) {
    exists q: Rank :: q < c.n && line <= c.key(q)
  }

  ghost predicate Inv(c: Setup, s: Net) {
    && FilesFit(c, s) && |s.phase| == c.n
    && (forall r :: 0 <= r < c.n ==> RankFits(c, s, r))
    && (forall r :: 0 <= r < c.n ==> ReaderFits(c, s, r))
    && (forall r :: r in s.auth ==> LinesFit(c, r, {}, s.auth[r]))
    && (forall r :: r in s.config ==> HostsFit(c, r, s.config[r]))
  }

  lemma StartFits(c: Setup)
    ensures Inv(c, Start(c))
  {
  }

  lemma {:induction false} AllBelow(s: set<Rank>, n: nat)
    requires (forall q :: q in s ==> q < n) && |s| >= n
    ensures forall q :: 0 <= q < n ==> q in s
    decreases n
  {
    if n > 0 {
      var rest := s - {n - 1};
      assert forall q :: q in rest ==> q < n - 1;
      Bounded(rest, n - 1);
      assert n - 1 !in s ==> rest == s;
      assert n - 1 in s;
      AllBelow(rest, n - 1);
      forall q | 0 <= q < n ensures q in s {
        assert q < n - 1 ==> q in rest;
      }
    }
  }

  lemma {:induction false} Bounded(s: set<Rank>, n: nat)
    requires forall q :: q in s ==> q < n
    ensures |s| <= n
    decreases n
  {
    if n == 0 {
      assert s == {};
    } else {
      Bounded(s - {n - 1}, n - 1);
    }
  }

  lemma KeysStayFit(c: Setup, s: Net, e: Event)
    requires Inv(c, s) && Enabled(c, s, e)
    ensures KeysFit(c, Apply(c, s, e))
  {
    if e.MakeBarrier? {
      AllBelow(s.keys.Keys, c.n);
      assert |s.keys.Keys| == |s.keys|;
    } else if !e.SeeAll? {
      assert RankFits(c, s, e.r);
    }
  }

  lemma FilesStayFit(c: Setup, s: Net, e: Event)
    requires Inv(c, s) && Enabled(c, s, e)
    ensures FilesFit(c, Apply(c, s, e))
  {
    KeysStayFit(c, s, e);
    if !e.MakeBarrier? && !e.SeeAll? { assert RankFits(c, s, e.r) && OutputFits(c, s, e.r); }
  }

  predicate Writes(e: Event) {
    e.Create? || e.Flush? || e.Fill?
  }

  lemma WriterFileFits(c: Setup, s: Net, e: Event)
    requires Inv(c, s) && Enabled(c, s, e) && Writes(e)
    ensures e.r < c.n && FileFits(c, Apply(c, s, e), e.r)
  {
    assert RankFits(c, s, e.r);
  }

  lemma OthersLeaveKeys(c: Setup, s: Net, e: Event)
    requires Enabled(c, s, e) && !Writes(e)
    ensures Apply(c, s, e).keys == s.keys
  {
  }

  lemma OthersPublishNothing(c: Setup, s: Net, e: Event)
    requires Enabled(c, s, e) && !Writes(e)
    ensures Caller(e) < |s.phase| == |Apply(c, s, e).phase|
    ensures !Apply(c, s, e).phase[Caller(e)].Filling?
    ensures Published(Apply(c, s, e).phase[Caller(e)]) ==> Published(s.phase[Caller(e)])
  {
  }

  /** Nothing else touches a key file or brings a rank past Filling. */
  lemma OtherFileFits(c: Setup, s: Net, e: Event)
    requires Caller(e) < |s.phase| && FileFits(c, s, Caller(e)) && Enabled(c, s, e) && !Writes(e)
    ensures Caller(e) < |Apply(c, s, e).phase| && FileFits(c, Apply(c, s, e), Caller(e))
  {
    OthersLeaveKeys(c, s, e);
    OthersPublishNothing(c, s, e);
  }

  lemma CallersFileFits(c: Setup, s: Net, e: Event)
    requires Inv(c, s) && Enabled(c, s, e)
    ensures Caller(e) < c.n && FileFits(c, Apply(c, s, e), Caller(e))
  {
    if Writes(e) {
      WriterFileFits(c, s, e);
    } else {
      assert RankFits(c, s, Caller(e));
      OtherFileFits(c, s, e);
    }
  }

  lemma NotesAndBarrierStay(c: Setup, s: Net, e: Event)
    requires Enabled(c, s, e) && Caller(e) < |s.phase|
    ensures s.barrier || e.MakeBarrier? ==> Apply(c, s, e).barrier
    ensures s.infos <= Apply(c, s, e).infos && (e.Note? ==> Caller(e) in Apply(c, s, e).infos)
  {
  }

  lemma PassesBarrierOnce(c: Setup, s: Net, e: Event)
    requires Enabled(c, s, e) && Caller(e) < |s.phase|
    ensures |Apply(c, s, e).phase| == |s.phase|
    ensures PastBarrier(Apply(c, s, e).phase[Caller(e)]) ==>
              PastBarrier(s.phase[Caller(e)]) || e.MakeBarrier? || s.barrier
    ensures Noted(Apply(c, s, e).phase[Caller(e)]) ==> Noted(s.phase[Caller(e)]) || e.Note?
  {
  }

  lemma CallersBarrierFits(c: Setup, s: Net, e: Event)
    requires Enabled(c, s, e) && Caller(e) < |s.phase| && BarrierFits(s, Caller(e))
    ensures Caller(e) < |Apply(c, s, e).phase| && BarrierFits(Apply(c, s, e), Caller(e))
  {
    NotesAndBarrierStay(c, s, e);
    PassesBarrierOnce(c, s, e);
  }

  lemma CallersOutputFits(c: Setup, s: Net, e: Event)
    requires Enabled(c, s, e) && Caller(e) < |s.phase| && OutputFits(c, s, Caller(e))
    ensures Caller(e) < |Apply(c, s, e).phase| && OutputFits(c, Apply(c, s, e), Caller(e))
  {
  }

  lemma CallerStaysFit(c: Setup, s: Net, e: Event)
    requires Inv(c, s) && Enabled(c, s, e)
    ensures Caller(e) < c.n && RankFits(c, Apply(c, s, e), Caller(e))
  {
    assert RankFits(c, s, Caller(e));
    CallersFileFits(c, s, e);
    CallersBarrierFits(c, s, e);
    CallersOutputFits(c, s, e);
  }

  lemma DoneGrows(c: Setup, s: Net, e: Event)
    requires Enabled(c, s, e)
    ensures |Apply(c, s, e).done| >= |s.done|
  {
    if e.Signal? { assert s.done + {e.r} == s.done + ({e.r} - s.done); }
  }

  lemma OtherRankStaysFit(c: Setup, s: Net, e: Event, r: Rank)
    requires Inv(c, s) && Enabled(c, s, e) && r < c.n && r != Caller(e)
    ensures RankFits(c, Apply(c, s, e), r)
  {
    assert RankFits(c, s, r);
    assert Apply(c, s, e).phase[r] == s.phase[r];
    DoneGrows(c, s, e);
  }

  lemma ReaderStaysFit(c: Setup, s: Net, e: Event, r: Rank)
    requires Inv(c, s) && Enabled(c, s, e) && r < c.n
    ensures ReaderFits(c, Apply(c, s, e), r)
  {
    if e.Read? && e.r == r {
      ReadFits(c, s, r, e.q);
    } else if e.Collect? && e.r == r {
      assert ReaderFits(c, s, r) && RankFits(c, s, r);
    } else {
      assert ReaderFits(c, s, r) && RankFits(c, s, r);
    }
  }

  /** What a reader gets from a file it can count on is that rank's key, and from any file the start of one. */
  lemma ReadFits(c: Setup, s: Net, r: Rank, q: Rank)
    requires Inv(c, s) && Enabled(c, s, Read(r, q)) && r < c.n
    ensures ReaderFits(c, Apply(c, s, Read(r, q)), r)
  {
    assert ReaderFits(c, s, r) && RankFits(c, s, r);
    assert FromSomeone(c, s.keys[q]);
    assert Trusted(c, r, q) ==> s.keys[q] == c.key(q);
  }

  lemma OutputStaysFit(c: Setup, s: Net, e: Event, r: Rank)
    requires Inv(c, s) && Enabled(c, s, e)
    ensures r in Apply(c, s, e).auth ==> LinesFit(c, r, {}, Apply(c, s, e).auth[r])
    ensures r in Apply(c, s, e).config ==> HostsFit(c, r, Apply(c, s, e).config[r])
  {
    if (e.Write? || e.Configure?) && e.r == r { assert ReaderFits(c, s, r); }
  }

  lemma StepKeepsInv(c: Setup, s: Net, e: Event)
    requires Inv(c, s) && Enabled(c, s, e)
    ensures Inv(c, Apply(c, s, e))
  {
    FilesStayFit(c, s, e);
    var t := Apply(c, s, e);
    forall r | 0 <= r < c.n ensures RankFits(c, t, r) {
      if r == Caller(e) { CallerStaysFit(c, s, e); } else { OtherRankStaysFit(c, s, e, r); }
    }
    forall r | 0 <= r < c.n ensures ReaderFits(c, t, r) { ReaderStaysFit(c, s, e, r); }
    forall r { OutputStaysFit(c, s, e, r); }
  }

  lemma {:induction false} RunKeepsInv(c: Setup, s: Net, es: seq<Event>)
    requires Inv(c, s) && Runs(c, s, es)
    ensures Inv(c, After(c, s, es))
    decreases |es|
  {
    if es != [] {
      StepKeepsInv(c, s, es[0]);
      RunKeepsInv(c, Apply(c, s, es[0]), es[1..]);
    }
  }

  lemma ReachableInv(c: Setup, s: Net)
    requires Reachable(c, s)
    ensures Inv(c, s)
  {
    var es :| Runs(c, Start(c), es) && After(c, Start(c), es) == s;
    StartFits(c);
    RunKeepsInv(c, Start(c), es);
  }
}
