/**
 Account leases: every switch or new resolution of the session starts a generation, every read and
 command captures one, and nothing captured under an older generation is installed, even when the
 same account is back.
 */
module AccountLease {
  import opened Wrappers
  import opened WorkspaceDelta

  type Account = string

  datatype Lease = Lease(account: Account, generation: nat)

  class Session {
    var account: Option<Account>
    var generation: nat

    constructor ()
      ensures account == None && generation == 0
    {
      account, generation := None, 0;
    }

    predicate Holds(l: Lease)
      reads this
    {
      account == Some(l.account) && generation == l.generation
    }

    /** Invalidation is synchronous: leases captured under another account stop holding at once. */
    method SetSession(next: Option<Account>)
      modifies this
      ensures account == next && generation == old(generation) + if next != old(account) then 1 else 0
      ensures forall l: Lease :: old(Holds(l)) && next != Some(l.account) ==> !Holds(l)
      ensures forall l: Lease :: l.generation <= old(generation) && next != old(account) ==> !Holds(l)
    {
      if next != account {
        account, generation := next, generation + 1;
      }
    }

    method BeginResolution()
      modifies this
      ensures account == old(account) && generation == old(generation) + 1
      ensures forall l: Lease :: l.generation <= old(generation) ==> !Holds(l)
    {
      generation := generation + 1;
    }

    method Capture(expected: Account) returns (l: Option<Lease>)
      ensures l.Some? <==> account == Some(expected)
      ensures l.Some? ==> l.value == Lease(expected, generation) && Holds(l.value)
    {
      if account != Some(expected) {
        return None;
      }
      return Some(Lease(expected, generation));
    }
  }

  // ---------------------------------------------------------------------------------------
  // All schedules of reads, commands, edits and switches
  // ---------------------------------------------------------------------------------------

  datatype Phase = Fetching | Checked | Replaced | Finished

  /** A read under way: its lease, the server's revision when it started, the cache it sampled, and the
      revision and snapshot it was answered with. The cache is replaced or found current first; the
      checkpoint is another store. */
  datatype Read = Read(lease: Lease, floor: nat, local: Option<Workspace>, remote: Option<nat>, snapshot: Workspace,
                       phase: Phase)

  /** A pending command of an account: whether its receipt is in the cache, whether the checkpoint was
      tried, and whether it moved. */
  datatype Command = Command(receipt: Option<nat>, tried: bool, moved: bool)

  /** What the replaced cache says it was read from. */
  datatype Baseline = Baseline(account: Account, revision: nat)

  /** A replacement of the cache, with the number of times it had been cleared before. */
  datatype Installed = Installed(lease: Lease, revision: nat, epoch: nat)

  /** A command's receipt that is in the cache and has left the outbox. */
  datatype Receipt = Receipt(account: Account, revision: nat, moved: bool)

  datatype Cache = Cache(
    account: Option<Account>,
    generation: nat,
    server: map<Account, nat>,
    contents: Workspace,
    baseline: Option<Baseline>,
    checkpoints: map<Account, nat>,
    commands: map<Account, Command>,
    fetches: seq<Read>,
    epoch: nat,
    installs: seq<Installed>,
    receipts: seq<Receipt>)

  predicate Holds(s: Cache, l: Lease) {
    s.account == Some(l.account) && s.generation == l.generation
  }

  function Checkpoint(s: Cache, a: Account): nat {
    if a in s.checkpoints then s.checkpoints[a] else 0
  }

  function Server(s: Cache, a: Account): nat {
    if a in s.server then s.server[a] else 0
  }

  datatype Step =
    | Switch(next: Option<Account>) | Resolve | Reload
    | ServerWrite(account: Account) | Edit(w: Workspace) | Clear
    | StartRead(account: Account) | Sample(read: nat) | Answer(read: nat, revision: nat, w: Workspace)
    | Replace(read: nat) | CheckCurrent(read: nat) | MarkFresh(read: nat)
    | Queue(account: Account) | Receive(account: Account, revision: nat, w: Workspace)
    | Advance(account: Account) | Retire(account: Account) | Drop(account: Account)

  /** What a read still checks before it writes: its lease, the outbox, and the checkpoint. */
  predicate Current(s: Cache, r: Read) {
    && Holds(s, r.lease) && r.lease.account !in s.commands
    && r.remote.Some? && Checkpoint(s, r.lease.account) <= r.remote.value
  }

  /** One transaction: the cache is still what was sampled, and its baseline is not newer. */
  ghost predicate Replaces(s: Cache, i: nat, s': Cache) {
    && i < |s.fetches| && s.fetches[i].phase == Fetching && Current(s, s.fetches[i])
    && s.fetches[i].local == Some(s.contents)
    && var r := s.fetches[i];
       && (s.baseline.Some? && s.baseline.value.account == r.lease.account ==>
             s.baseline.value.revision <= r.remote.value)
       && s' == s.(contents := r.snapshot, baseline := Some(Baseline(r.lease.account, r.remote.value)),
                   fetches := s.fetches[i := r.(phase := Replaced)],
                   installs := s.installs + [Installed(r.lease, r.remote.value, s.epoch)])
  }

  /** Nothing to replace: the cache is still what was sampled, and it is the snapshot that was read, or
      the checkpoint says that no newer one was. */
  ghost predicate Checks(s: Cache, i: nat, s': Cache) {
    && i < |s.fetches| && s.fetches[i].phase == Fetching && Current(s, s.fetches[i])
    && s.fetches[i].local == Some(s.contents)
    && (s.contents == s.fetches[i].snapshot || Checkpoint(s, s.fetches[i].lease.account) == s.fetches[i].remote.value)
    && s' == s.(fetches := s.fetches[i := s.fetches[i].(phase := Checked)])
  }

  /** The checkpoint, after the cache was replaced or found current. */
  ghost predicate Marks(s: Cache, i: nat, s': Cache) {
    && i < |s.fetches| && s.fetches[i].phase in {Checked, Replaced} && Current(s, s.fetches[i])
    && s' == s.(checkpoints := s.checkpoints[s.fetches[i].lease.account := s.fetches[i].remote.value],
                fetches := s.fetches[i := s.fetches[i].(phase := Finished)])
  }

  ghost predicate NextRead(s: Cache, step: Step, s': Cache) {
    match step
    case StartRead(a) =>
      && s.account == Some(a) && a !in s.commands
      && s' == s.(fetches := s.fetches + [Read(Lease(a, s.generation), Server(s, a), None, None, map[], Fetching)])
    case Sample(i) =>
      && i < |s.fetches| && s.fetches[i].phase == Fetching && Holds(s, s.fetches[i].lease)
      && s' == s.(fetches := s.fetches[i := s.fetches[i].(local := Some(s.contents))])
    case Answer(i, revision, w) =>
      && i < |s.fetches| && s.fetches[i].phase == Fetching && s.fetches[i].remote.None?
         && s.fetches[i].floor <= revision <= Server(s, s.fetches[i].lease.account)
      && s' == s.(fetches := s.fetches[i := s.fetches[i].(remote := Some(revision), snapshot := w)])
    case Replace(i) => Replaces(s, i, s')
    case CheckCurrent(i) => Checks(s, i, s')
    case MarkFresh(i) => Marks(s, i, s')
    case _ => false
  }

  ghost predicate NextCommand(s: Cache, step: Step, s': Cache) {
    match step
    case Queue(a) =>
      s.account == Some(a) && a !in s.commands && s' == s.(commands := s.commands[a := Command(None, false, false)])
    case Receive(a, revision, w) =>
      && s.account == Some(a) && a in s.commands && s.commands[a].receipt.None? && 0 < revision <= Server(s, a)
      && s' == s.(contents := w, commands := s.commands[a := Command(Some(revision), false, false)])
    case Advance(a) =>
      && a in s.commands && s.commands[a].receipt.Some? && !s.commands[a].tried
      && var revision := s.commands[a].receipt.value;
         if revision == Checkpoint(s, a) + 1
         then s' == s.(checkpoints := s.checkpoints[a := revision],
                       commands := s.commands[a := Command(Some(revision), true, true)])
         else s' == s.(commands := s.commands[a := Command(Some(revision), true, false)])
    case Retire(a) =>
      && a in s.commands && s.commands[a].receipt.Some? && s.commands[a].tried
      && s' == s.(commands := s.commands - {a},
                  receipts := s.receipts + [Receipt(a, s.commands[a].receipt.value, s.commands[a].moved)])
    case Drop(a) => a in s.commands && s.commands[a].receipt.None? && s' == s.(commands := s.commands - {a})
    case _ => false
  }

  ghost predicate Next(s: Cache, step: Step, s': Cache) {
    match step
    case Switch(next) => s' == if next == s.account then s else s.(account := next, generation := s.generation + 1)
    case Resolve => s' == s.(generation := s.generation + 1)
    case Reload => s' == s.(generation := s.generation + 1, fetches := [])
    case ServerWrite(a) => s' == s.(server := s.server[a := Server(s, a) + 1])
    case Edit(w) => s' == s.(contents := w)
    case Clear => s' == s.(contents := map[], baseline := None, epoch := s.epoch + 1)
    case _ => NextRead(s, step, s') || NextCommand(s, step, s')
  }

  ghost predicate Initial(s: Cache) {
    s == Cache(None, 0, map[], s.contents, None, map[], map[], [], 0, [], [])
  }

  ghost predicate Run(states: seq<Cache>, steps: seq<Step>) {
    && |states| == |steps| + 1 && Initial(states[0])
    && forall i | 0 <= i < |steps| :: Next(states[i], steps[i], states[i + 1])
  }

  // ---------------------------------------------------------------------------------------
  // The invariant
  // ---------------------------------------------------------------------------------------

  /** Answers lie between the server's revision at the start of the read and the present one, and a
      read that has replaced the cache is on record. */
  ghost predicate ReadInv(s: Cache, r: Read) {
    && (r.phase == Replaced ==> r.remote.Some? && Recorded(s, r))
    && r.lease.generation <= s.generation && r.floor <= Server(s, r.lease.account)
    && (r.remote.Some? ==> r.floor <= r.remote.value <= Server(s, r.lease.account))
    && forall x | x in s.installs && x.lease.account == r.lease.account && x.lease.generation < r.lease.generation ::
         x.revision <= r.floor
  }

  ghost predicate Recorded(s: Cache, r: Read)
    requires r.remote.Some?
  {
    exists epoch :: Installed(r.lease, r.remote.value, epoch) in s.installs
  }

  /** A replacement of this generation is still what the baseline says, or was replaced by a newer one,
      until the cache is cleared. */
  ghost predicate InstallInv(s: Cache, x: Installed) {
    && x.lease.generation <= s.generation && x.epoch <= s.epoch && x.revision <= Server(s, x.lease.account)
    && (x.lease.generation == s.generation ==> s.account == Some(x.lease.account))
    && (x.lease.generation == s.generation && x.epoch == s.epoch ==>
          s.baseline.Some? && s.baseline.value.account == x.lease.account && x.revision <= s.baseline.value.revision)
  }

  /** In order, unless the cache was cleared in between under the same lease. */
  predicate InOrder(x: Installed, y: Installed) {
    x.lease.account == y.lease.account ==> x.revision <= y.revision || (x.lease == y.lease && x.epoch < y.epoch)
  }

  ghost predicate ReadsInv(s: Cache) {
    forall r | r in s.fetches :: ReadInv(s, r)
  }

  ghost predicate InstallsInv(s: Cache) {
    && (forall x | x in s.installs :: InstallInv(s, x))
    && (forall i, j | 0 <= i < j < |s.installs| :: InOrder(s.installs[i], s.installs[j]))
    && (forall x, y | x in s.installs && y in s.installs && x.lease.generation == y.lease.generation ::
          x.lease == y.lease)
  }

  /** A receipt that moved the checkpoint is not above it. */
  ghost predicate ReceiptsInv(s: Cache) {
    && (forall x | x in s.receipts && x.moved :: x.revision <= Checkpoint(s, x.account))
    && (forall a | a in s.commands && s.commands[a].moved ::
          s.commands[a].receipt.Some? && s.commands[a].receipt.value <= Checkpoint(s, a))
  }

  ghost predicate Inv(s: Cache) {
    ReadsInv(s) && InstallsInv(s) && ReceiptsInv(s)
  }

  lemma CheckpointGrows(s: Cache, step: Step, s': Cache, a: Account)
    requires Next(s, step, s')
    ensures Checkpoint(s, a) <= Checkpoint(s', a)
  {}

  lemma NextReceipts(s: Cache, step: Step, s': Cache)
    requires ReceiptsInv(s) && Next(s, step, s')
    ensures ReceiptsInv(s')
  {
    forall x | x in s'.receipts && x.moved ensures x.revision <= Checkpoint(s', x.account) {
      CheckpointGrows(s, step, s', x.account);
      NextReceipt(s, step, s', x);
    }
    forall a | a in s'.commands && s'.commands[a].moved
      ensures s'.commands[a].receipt.Some? && s'.commands[a].receipt.value <= Checkpoint(s', a)
    {
      CheckpointGrows(s, step, s', a);
      NextMoved(s, step, s', a);
    }
  }

  lemma NextReceipt(s: Cache, step: Step, s': Cache, x: Receipt)
    requires ReceiptsInv(s) && Next(s, step, s') && x in s'.receipts && x.moved
    ensures x.revision <= Checkpoint(s, x.account)
  {}

  lemma NextMoved(s: Cache, step: Step, s': Cache, a: Account)
    requires ReceiptsInv(s) && Next(s, step, s') && a in s'.commands && s'.commands[a].moved
    ensures s'.commands[a].receipt.Some?
    ensures s'.commands[a].receipt.value <= Checkpoint(s, a)
            || (step.Advance? && step.account == a && s'.commands[a].receipt.value == Checkpoint(s', a))
  {}

  lemma ServerGrows(s: Cache, step: Step, s': Cache, a: Account)
    requires Next(s, step, s')
    ensures Server(s, a) <= Server(s', a) && s.generation <= s'.generation && s.epoch <= s'.epoch
  {}

  /** A step that is no replacement leaves the list of replacements. */
  lemma OtherReads(s: Cache, step: Step, s': Cache, r: Read)
    requires ReadsInv(s) && InstallsInv(s) && Next(s, step, s') && !step.Replace? && r in s'.fetches
    ensures ReadInv(s', r)
  {
    ServerGrows(s, step, s', r.lease.account);
    assert s'.installs == s.installs;
    if r in s.fetches {
      assert ReadInv(s, r);
    } else if step.StartRead? {
      assert forall x | x in s.installs :: InstallInv(s, x);
    } else if step.Sample? || step.Answer? || step.CheckCurrent? || step.MarkFresh? {
      assert ReadInv(s, s.fetches[step.read]);
    }
  }

  lemma OtherInstalls(s: Cache, step: Step, s': Cache)
    requires InstallsInv(s) && Next(s, step, s') && !step.Replace?
    ensures InstallsInv(s')
  {
    assert s'.installs == s.installs;
    forall x | x in s'.installs ensures InstallInv(s', x) {
      assert InstallInv(s, x);
      ServerGrows(s, step, s', x.lease.account);
    }
  }

  lemma ReplaceReads(s: Cache, i: nat, s': Cache, r: Read)
    requires Inv(s) && Replaces(s, i, s') && r in s'.fetches
    ensures ReadInv(s', r)
  {
    assert ReadInv(s, s.fetches[i]);
    assert r in s.fetches || r == s.fetches[i].(phase := Replaced);
    assert r in s.fetches ==> ReadInv(s, r);
    assert s'.installs[|s.installs|] in s'.installs;
    if r in s.fetches && r.phase == Replaced {
      var epoch :| Installed(r.lease, r.remote.value, epoch) in s.installs;
      assert Installed(r.lease, r.remote.value, epoch) in s'.installs;
    }
    forall x | x in s'.installs && x.lease.account == r.lease.account && x.lease.generation < r.lease.generation
      ensures x.revision <= r.floor
    {
      assert x in s.installs || x.lease.generation == s.generation;
    }
  }

  lemma ReplaceOrder(s: Cache, i: nat, s': Cache, x: Installed)
    requires Inv(s) && Replaces(s, i, s') && x in s.installs
    ensures InOrder(x, s'.installs[|s.installs|])
    ensures x.lease.generation == s.generation ==> x.lease == s.fetches[i].lease
  {
    assert ReadInv(s, s.fetches[i]) && InstallInv(s, x);
  }

  lemma ReplaceInstalls(s: Cache, i: nat, s': Cache)
    requires Inv(s) && Replaces(s, i, s')
    ensures InstallsInv(s')
  {
    var y := s'.installs[|s.installs|];
    assert ReadInv(s, s.fetches[i]);
    forall x | x in s.installs ensures InOrder(x, y) && (x.lease.generation == s.generation ==> x.lease == y.lease) {
      ReplaceOrder(s, i, s', x);
    }
    forall x | x in s'.installs ensures InstallInv(s', x) {
      if x in s.installs {
        assert InstallInv(s, x);
      }
    }
    forall a, b | 0 <= a < b < |s'.installs| ensures InOrder(s'.installs[a], s'.installs[b]) {
      if b == |s.installs| {
        assert s.installs[a] in s.installs;
      }
    }
  }

  lemma NextInv(s: Cache, step: Step, s': Cache)
    requires Inv(s) && Next(s, step, s')
    ensures Inv(s')
  {
    NextReceipts(s, step, s');
    if step.Replace? {
      forall r | r in s'.fetches ensures ReadInv(s', r) {
        ReplaceReads(s, step.read, s', r);
      }
      ReplaceInstalls(s, step.read, s');
    } else {
      forall r | r in s'.fetches ensures ReadInv(s', r) {
        OtherReads(s, step, s', r);
      }
      OtherInstalls(s, step, s');
    }
  }

  lemma {:induction false} RunInv(states: seq<Cache>, steps: seq<Step>, n: nat)
    requires Run(states, steps) && n <= |steps|
    ensures Inv(states[n])
    decreases n
  {
    if n > 0 {
      RunInv(states, steps, n - 1);
      NextInv(states[n - 1], steps[n - 1], states[n]);
    }
  }

  // ---------------------------------------------------------------------------------------
  // What every schedule keeps
  // ---------------------------------------------------------------------------------------

  /** Over every schedule, with a stop possible between the replacement of the cache and its checkpoint,
      the revisions read into the cache for one account never go down, unless the cache was cleared in
      between under the same lease; and one generation reads for one account only. */
  lemma InstallsAreMonotone(states: seq<Cache>, steps: seq<Step>, n: nat)
    requires Run(states, steps) && n <= |steps|
    ensures var xs := states[n].installs;
            && (forall i, j | 0 <= i < j < |xs| && xs[i].lease.account == xs[j].lease.account ::
                  xs[i].revision <= xs[j].revision || (xs[i].lease == xs[j].lease && xs[i].epoch < xs[j].epoch))
            && (forall i, j | 0 <= i < j < |xs| && xs[i].lease.generation == xs[j].lease.generation ::
                  xs[i].lease == xs[j].lease)
  {
    RunInv(states, steps, n);
    var xs := states[n].installs;
    forall i, j | 0 <= i < j < |xs| && xs[i].lease.account == xs[j].lease.account
      ensures xs[i].revision <= xs[j].revision || (xs[i].lease == xs[j].lease && xs[i].epoch < xs[j].epoch)
    {
      assert InOrder(xs[i], xs[j]);
    }
  }

  /** A read replaces no cache that shows a newer receipt, unless that receipt could not move the
      checkpoint because somebody else's revision lay in between. */
  lemma ReadKeepsReceipts(states: seq<Cache>, steps: seq<Step>, n: nat, x: Receipt)
    requires Run(states, steps) && n < |steps| && steps[n].Replace? && x in states[n].receipts
    requires steps[n].read < |states[n].fetches| && states[n].fetches[steps[n].read].lease.account == x.account
    ensures x.moved ==> x.revision <= states[n + 1].installs[|states[n + 1].installs| - 1].revision
  {
    RunInv(states, steps, n);
    assert Next(states[n], steps[n], states[n + 1]);
  }

  /** The checkpoint a read moves after its replacement is not above what the cache was read from, unless
      the cache was cleared since that replacement. */
  lemma CheckpointIsCached(states: seq<Cache>, steps: seq<Step>, n: nat)
    requires Run(states, steps) && n < |steps| && steps[n].MarkFresh? && steps[n].read < |states[n].fetches|
    requires states[n].fetches[steps[n].read].phase == Replaced
    ensures var a := states[n].fetches[steps[n].read].lease.account;
            var revision := Checkpoint(states[n + 1], a);
            exists x :: x in states[n].installs && x.lease == Lease(a, states[n].generation) && x.revision == revision
              && (x.epoch == states[n].epoch ==>
                    exists newer :: revision <= newer && states[n + 1].baseline == Some(Baseline(a, newer)))
  {
    RunInv(states, steps, n);
    assert Next(states[n], steps[n], states[n + 1]);
    var r := states[n].fetches[steps[n].read];
    assert ReadInv(states[n], r);
    var epoch :| Installed(r.lease, r.remote.value, epoch) in states[n].installs;
    var x := Installed(r.lease, r.remote.value, epoch);
    assert InstallInv(states[n], x);
    if x.epoch == states[n].epoch {
      var newer := states[n].baseline.value.revision;
      assert x.revision <= newer && states[n + 1].baseline == Some(Baseline(r.lease.account, newer));
    }
  }

  lemma CheckpointGrowsOn(states: seq<Cache>, steps: seq<Step>, i: nat, j: nat, a: Account)
    requires Run(states, steps) && i <= j <= |steps|
    ensures Checkpoint(states[i], a) <= Checkpoint(states[j], a)
  {
    forall k | i <= k < j ensures Checkpoint(states[k], a) <= Checkpoint(states[k + 1], a) {
      CheckpointStep(states, steps, k, a);
    }
    NeverFalls(states, i, j, a);
  }

  lemma {:induction false} NeverFalls(states: seq<Cache>, i: nat, j: nat, a: Account)
    requires i <= j < |states| && forall k | i <= k < j :: Checkpoint(states[k], a) <= Checkpoint(states[k + 1], a)
    ensures Checkpoint(states[i], a) <= Checkpoint(states[j], a)
    decreases j
  {
    if i < j {
      NeverFalls(states, i, j - 1, a);
      assert Checkpoint(states[j - 1], a) <= Checkpoint(states[j - 1 + 1], a);
    }
  }

  lemma CheckpointStep(states: seq<Cache>, steps: seq<Step>, k: nat, a: Account)
    requires Run(states, steps) && k < |steps|
    ensures Checkpoint(states[k], a) <= Checkpoint(states[k + 1], a)
  {
    StepTaken(states, steps, k);
    CheckpointGrows(states[k], steps[k], states[k + 1], a);
  }

  lemma StepTaken(states: seq<Cache>, steps: seq<Step>, k: nat)
    requires Run(states, steps) && k < |steps|
    ensures Next(states[k], steps[k], states[k + 1])
  {}

  /** A read that found the cache current did so at some earlier check, with what it was answered. */
  lemma {:induction false} CheckedOnce(states: seq<Cache>, steps: seq<Step>, n: nat, i: nat) returns (k: nat)
    requires Run(states, steps) && n <= |steps| && i < |states[n].fetches| && states[n].fetches[i].phase == Checked
    ensures k < n && steps[k] == CheckCurrent(i) && i < |states[k].fetches|
    ensures states[k].fetches[i].(phase := Checked) == states[n].fetches[i]
    ensures states[k].contents == states[n].fetches[i].snapshot
            || Some(Checkpoint(states[k], states[n].fetches[i].lease.account)) == states[n].fetches[i].remote
    decreases n
  {
    StepTaken(states, steps, n - 1);
    if steps[n - 1] == CheckCurrent(i) {
      k := n - 1;
    } else {
      StillChecked(states[n - 1], steps[n - 1], states[n], i);
      k := CheckedOnce(states, steps, n - 1, i);
    }
  }

  lemma StillChecked(s: Cache, step: Step, s': Cache, i: nat)
    requires Next(s, step, s') && step != CheckCurrent(i) && i < |s'.fetches| && s'.fetches[i].phase == Checked
    ensures i < |s.fetches| && s.fetches[i] == s'.fetches[i]
  {}

  /** A read that replaces nothing moves the checkpoint only to the revision of a snapshot that it had
      found the cache to be equal to. */
  lemma CheckpointIsChecked(states: seq<Cache>, steps: seq<Step>, n: nat)
    requires Run(states, steps) && n < |steps| && steps[n].MarkFresh? && steps[n].read < |states[n].fetches|
    requires states[n].fetches[steps[n].read].phase == Checked
    ensures var r := states[n].fetches[steps[n].read];
            Checkpoint(states[n + 1], r.lease.account) == Checkpoint(states[n], r.lease.account)
            || (r.remote == Some(Checkpoint(states[n + 1], r.lease.account))
                && exists k | 0 <= k < n :: steps[k] == CheckCurrent(steps[n].read) && states[k].contents == r.snapshot)
  {
    var r := states[n].fetches[steps[n].read];
    StepTaken(states, steps, n);
    var k := CheckedOnce(states, steps, n, steps[n].read);
    CheckpointGrowsOn(states, steps, k, n, r.lease.account);
  }

  lemma {:induction false} GenerationGrows(states: seq<Cache>, steps: seq<Step>, i: nat, j: nat)
    requires Run(states, steps) && i <= j <= |steps|
    ensures states[i].generation <= states[j].generation
    decreases j
  {
    if i < j {
      GenerationGrows(states, steps, i, j - 1);
      ServerGrows(states[j - 1], steps[j - 1], states[j], "");
    }
  }

  /** Once the account has changed, nothing captured before is ever written, neither to the cache nor to
      the checkpoint: not after the other account, and not after the first account is back. */
  lemma LateResponseInstallsNothing(states: seq<Cache>, steps: seq<Step>, i: nat, j: nat, l: Lease)
    requires Run(states, steps) && i < j <= |steps| && l.generation <= states[i].generation
    requires steps[i].Resolve? || steps[i].Reload? || (steps[i].Switch? && steps[i].next != states[i].account)
    ensures !Holds(states[j], l)
    ensures j < |steps| && (steps[j].Replace? || steps[j].MarkFresh?) ==>
              steps[j].read < |states[j].fetches| && states[j].fetches[steps[j].read].lease != l
  {
    assert Next(states[i], steps[i], states[i + 1]);
    GenerationGrows(states, steps, i + 1, j);
    if j < |steps| {
      assert Next(states[j], steps[j], states[j + 1]);
    }
  }

  // ---------------------------------------------------------------------------------------
  // An undisturbed read goes through
  // ---------------------------------------------------------------------------------------

  lemma Then(states: seq<Cache>, steps: seq<Step>, step: Step, s': Cache) returns (longer: seq<Cache>, more: seq<Step>)
    requires Run(states, steps) && Next(states[|steps|], step, s')
    ensures Run(longer, more) && longer == states + [s'] && more == steps + [step] && longer[|more|] == s'
  {
    longer, more := states + [s'], steps + [step];
  }

  /** Neither the checkpoints nor the baseline nor a command's receipt is ahead of the server. */
  ghost predicate NothingAhead(s: Cache) {
    && (forall a :: Checkpoint(s, a) <= Server(s, a))
    && (s.baseline.Some? ==> s.baseline.value.revision <= Server(s, s.baseline.value.account))
    && forall a | a in s.commands && s.commands[a].receipt.Some? :: s.commands[a].receipt.value <= Server(s, a)
  }

  lemma CheckpointStays(s: Cache, step: Step, s': Cache, a: Account)
    requires ReadsInv(s) && NothingAhead(s) && Next(s, step, s')
    ensures Checkpoint(s', a) <= Server(s', a)
  {
    ServerGrows(s, step, s', a);
    if step.MarkFresh? {
      assert ReadInv(s, s.fetches[step.read]);
    }
  }

  lemma BaselineStays(s: Cache, step: Step, s': Cache)
    requires ReadsInv(s) && NothingAhead(s) && Next(s, step, s') && s'.baseline.Some?
    ensures s'.baseline.value.revision <= Server(s', s'.baseline.value.account)
  {
    ServerGrows(s, step, s', s'.baseline.value.account);
    if step.Replace? {
      assert ReadInv(s, s.fetches[step.read]);
    }
  }

  lemma ReceiptStays(s: Cache, step: Step, s': Cache, a: Account)
    requires NothingAhead(s) && Next(s, step, s') && a in s'.commands && s'.commands[a].receipt.Some?
    ensures s'.commands[a].receipt.value <= Server(s', a)
  {
    ServerGrows(s, step, s', a);
  }

  lemma StaysBehind(s: Cache, step: Step, s': Cache)
    requires Inv(s) && NothingAhead(s) && Next(s, step, s')
    ensures NothingAhead(s')
  {
    forall a ensures Checkpoint(s', a) <= Server(s', a) {
      CheckpointStays(s, step, s', a);
    }
    if s'.baseline.Some? {
      BaselineStays(s, step, s');
    }
    forall a | a in s'.commands && s'.commands[a].receipt.Some? ensures s'.commands[a].receipt.value <= Server(s', a) {
      ReceiptStays(s, step, s', a);
    }
  }

  lemma {:induction false} RunStaysBehind(states: seq<Cache>, steps: seq<Step>, n: nat)
    requires Run(states, steps) && n <= |steps|
    ensures NothingAhead(states[n])
    decreases n
  {
    if n > 0 {
      RunStaysBehind(states, steps, n - 1);
      RunInv(states, steps, n - 1);
      StepTaken(states, steps, n - 1);
      StaysBehind(states[n - 1], steps[n - 1], states[n]);
    }
  }

  /** From every reachable state whose account has nothing in the outbox, a read that nobody interrupts puts the
      server's snapshot into the cache and moves the checkpoint to its revision. */
  lemma ReadGoesThrough(states: seq<Cache>, steps: seq<Step>, a: Account, w: Workspace)
    returns (longer: seq<Cache>, more: seq<Step>)
    requires Run(states, steps)
    requires states[|steps|].account == Some(a) && a !in states[|steps|].commands
    ensures Run(longer, more) && |more| == |steps| + 5 && more[..|steps|] == steps
    ensures var s, t := states[|steps|], longer[|more|];
            && t.contents == w && t.baseline == Some(Baseline(a, Server(s, a)))
            && Checkpoint(t, a) == Server(s, a) && t.server == s.server && t.commands == s.commands
  {
    var s, i := states[|steps|], |states[|steps|].fetches|;
    RunStaysBehind(states, steps, |steps|);
    var r := Read(Lease(a, s.generation), Server(s, a), None, None, map[], Fetching);
    var sampled := r.(local := Some(s.contents));
    var answered := sampled.(remote := Some(Server(s, a)), snapshot := w);
    var s1 := s.(fetches := s.fetches + [r]);
    var s2 := s1.(fetches := s1.fetches[i := sampled]);
    var s3 := s2.(fetches := s2.fetches[i := answered]);
    var s4 := s3.(contents := w, baseline := Some(Baseline(a, Server(s, a))),
                  fetches := s3.fetches[i := answered.(phase := Replaced)],
                  installs := s.installs + [Installed(r.lease, Server(s, a), s.epoch)]);
    var s5 := s4.(checkpoints := s.checkpoints[a := Server(s, a)],
                  fetches := s4.fetches[i := answered.(phase := Finished)]);
    longer, more := Then(states, steps, StartRead(a), s1);
    longer, more := Then(longer, more, Sample(i), s2);
    longer, more := Then(longer, more, Answer(i, Server(s, a), w), s3);
    longer, more := Then(longer, more, Replace(i), s4);
    longer, more := Then(longer, more, MarkFresh(i), s5);
  }

  // ---------------------------------------------------------------------------------------
  // The exceptions are reachable
  // ---------------------------------------------------------------------------------------

  /** One read, answered before the server moved on. */
  function Older(one: Workspace): Read {
    Read(Lease("a", 1), 1, None, Some(1), one, Fetching)
  }

  /** A second one, answered after that. */
  function Newer(w: Workspace, two: Workspace): Read {
    Read(Lease("a", 1), 2, Some(w), Some(2), two, Fetching)
  }

  function Started(w: Workspace, fetches: seq<Read>): Cache {
    Cache(Some("a"), 1, map["a" := 2], w, None, map[], map[], fetches, 0, [], [])
  }

  lemma FirstRead(w: Workspace, one: Workspace) returns (states: seq<Cache>, steps: seq<Step>)
    ensures Run(states, steps) && states[|steps|] == Started(w, [Older(one)])
  {
    var s0 := Cache(None, 0, map[], w, None, map[], map[], [], 0, [], []);
    var s1 := s0.(account := Some("a"), generation := 1);
    var s2 := s1.(server := map["a" := 1]);
    var s3 := s2.(fetches := [Read(Lease("a", 1), 1, None, None, map[], Fetching)]);
    var s4 := s3.(fetches := [Older(one)]);
    states, steps := Then([s0], [], Switch(Some("a")), s1);
    states, steps := Then(states, steps, ServerWrite("a"), s2);
    states, steps := Then(states, steps, StartRead("a"), s3);
    states, steps := Then(states, steps, Answer(0, 1, one), s4);
    states, steps := Then(states, steps, ServerWrite("a"), Started(w, [Older(one)]));
  }

  lemma SecondRead(w: Workspace, one: Workspace, two: Workspace) returns (states: seq<Cache>, steps: seq<Step>)
    ensures Run(states, steps) && states[|steps|] == Started(w, [Older(one), Newer(w, two)])
  {
    states, steps := FirstRead(w, one);
    var s6 := Started(w, [Older(one), Read(Lease("a", 1), 2, None, None, map[], Fetching)]);
    var s7 := Started(w, [Older(one), Read(Lease("a", 1), 2, None, Some(2), two, Fetching)]);
    states, steps := Then(states, steps, StartRead("a"), s6);
    states, steps := Then(states, steps, Answer(1, 2, two), s7);
    states, steps := Then(states, steps, Sample(1), Started(w, [Older(one), Newer(w, two)]));
  }

  /** The newer read replaces the cache, which another tab then clears. */
  lemma ClearedBetween(w: Workspace, one: Workspace, two: Workspace) returns (states: seq<Cache>, steps: seq<Step>)
    ensures Run(states, steps)
    ensures states[|steps|] == Started(map[], [Older(one), Newer(w, two).(phase := Replaced)]).(
                                 epoch := 1, installs := [Installed(Lease("a", 1), 2, 0)])
  {
    states, steps := SecondRead(w, one, two);
    var r0, r1 := Older(one), Newer(w, two).(phase := Replaced);
    var s9 := Started(two, [r0, r1]).(baseline := Some(Baseline("a", 2)), installs := [Installed(Lease("a", 1), 2, 0)]);
    states, steps := Then(states, steps, Replace(1), s9);
    states, steps := Then(states, steps, Clear, s9.(contents := map[], baseline := None, epoch := 1));
  }

  /** The cache is cleared while the lease holds, as another tab does when it signs out, between a
      replacement and its checkpoint. An older read then gets in, so the two replacements are out of
      order, and the checkpoint is moved over it: the cache shows revision 1 and the checkpoint says 2. */
  lemma CheckpointOverOlderCache(w: Workspace, one: Workspace, two: Workspace)
    returns (states: seq<Cache>, steps: seq<Step>)
    ensures Run(states, steps)
    ensures var s := states[|steps|];
            && s.installs == [Installed(Lease("a", 1), 2, 0), Installed(Lease("a", 1), 1, 1)] && Holds(s, Lease("a", 1))
            && s.contents == one && s.baseline == Some(Baseline("a", 1)) && Checkpoint(s, "a") == 2
  {
    states, steps := ClearedBetween(w, one, two);
    var r0, r1 := Older(one), Newer(w, two).(phase := Replaced);
    var older, newer := Installed(Lease("a", 1), 1, 1), Installed(Lease("a", 1), 2, 0);
    var s10 := Started(map[], [r0, r1]).(epoch := 1, installs := [newer]);
    var s11 := s10.(fetches := [r0.(local := Some(map[])), r1]);
    var s12 := s11.(contents := one, baseline := Some(Baseline("a", 1)), installs := [newer, older],
                    fetches := [r0.(local := Some(map[]), phase := Replaced), r1]);
    var s13 := s12.(checkpoints := map["a" := 2],
                    fetches := [r0.(local := Some(map[]), phase := Replaced), r1.(phase := Finished)]);
    states, steps := Then(states, steps, Sample(0), s11);
    states, steps := Then(states, steps, Replace(0), s12);
    states, steps := Then(states, steps, MarkFresh(1), s13);
  }
}
