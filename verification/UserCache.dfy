/** The account list as a server process sees it while other processes replace
    the file. Each replacement is atomic and carries a fresh timestamp; it may
    fall anywhere, between reading the timestamp and reading the file, and between
    a save of this process and its reading of the timestamp. */
module UserCache {
  import opened Wrappers
  import opened Users

  type Accounts = map<string, string>

  datatype Version = Version(text: string, stamp: nat)

  /** A look-up, from the versions there were when it began; or a save, which has
      just put version `wrote` in place. */
  datatype Pc =
    | Idle
    | Stamped(began: nat, stamp: Option<nat>)
    | Loading(began: nat)
    | Reading(began: nat, text: Option<string>)
    | Answering(began: nat)
    | Saved(wrote: nat)

  /** Every version the file ever had, in order; the cached accounts and the
      timestamp they are filed under. `own` is the version this process wrote when it
      filed that one under the timestamp of a later one. */
  datatype State = State(versions: seq<Version>, cache: Accounts, loaded: Option<nat>, own: Option<nat>, pc: Pc)

  /** Version 0 is no file at all. */
  function TextAt(vs: seq<Version>, i: nat): Option<string>
    requires i <= |vs|
  {
    if i == 0 then None else Some(vs[i - 1].text)
  }

  function StampAt(vs: seq<Version>, i: nat): Option<nat>
    requires i <= |vs|
  {
    if i == 0 then None else Some(vs[i - 1].stamp)
  }

  function AccountsAt(vs: seq<Version>, i: nat): Accounts
    requires i <= |vs|
  {
    Load(TextAt(vs, i)).accounts
  }

  function Now(s: State): nat {
    |s.versions|
  }

  ghost predicate FreshStamp(s: State, stamp: nat) {
    forall i :: 0 <= i < |s.versions| ==> s.versions[i].stamp != stamp
  }

  datatype Step =
    | Replace(text: string, stamp: nat)   // another process
    | ReadStamp
    | KeepCache
    | Drop
    | OpenFile
    | ParseFile
    | Answer
    | SaveOwn(text: string, stamp: nat)   // this process renames its own save into place
    | StampOwn

  ghost predicate Enabled(s: State, step: Step) {
    match step
    case Replace(_, stamp) => FreshStamp(s, stamp)
    case ReadStamp => s.pc.Idle?
    case KeepCache => s.pc.Stamped? && (s.pc.stamp.None? || s.pc.stamp == s.loaded)
    case Drop => s.pc.Stamped? && s.pc.stamp.Some? && s.pc.stamp != s.loaded
    case OpenFile => s.pc.Loading?
    case ParseFile => s.pc.Reading?
    case Answer => s.pc.Answering?
    case SaveOwn(text, stamp) => s.pc.Idle? && FreshStamp(s, stamp)
    case StampOwn => s.pc.Saved?
  }

  /** A save first changes the cached accounts to what it writes. */
  function Apply(s: State, step: Step): State {
    match step
    case Replace(text, stamp) => s.(versions := s.versions + [Version(text, stamp)])
    case ReadStamp => s.(pc := Stamped(Now(s), StampAt(s.versions, Now(s))))
    case KeepCache => if s.pc.Stamped? then s.(pc := Answering(s.pc.began)) else s
    case Drop => if s.pc.Stamped? then s.(cache := map[], loaded := StampAt(s.versions, Now(s)), own := None, pc := Loading(s.pc.began)) else s
    case OpenFile => if s.pc.Loading? then s.(pc := Reading(s.pc.began, TextAt(s.versions, Now(s)))) else s
    case ParseFile => if s.pc.Reading? then s.(cache := Load(s.pc.text).accounts, pc := Answering(s.pc.began)) else s
    case Answer => s.(pc := Idle)
    case SaveOwn(text, stamp) =>
      s.(cache := Load(Some(text)).accounts, versions := s.versions + [Version(text, stamp)], own := None, pc := Saved(Now(s) + 1))
    case StampOwn =>
      if s.pc.Saved?
      then s.(loaded := StampAt(s.versions, Now(s)), own := if s.pc.wrote == Now(s) then None else Some(s.pc.wrote), pc := Idle)
      else s
  }

  function Start(): State {
    State([], map[], None, None, Idle)
  }

  ghost predicate Run(s: State, steps: seq<Step>, s': State)
    decreases |steps|
  {
    if steps == [] then s == s' else Enabled(s, steps[0]) && Run(Apply(s, steps[0]), steps[1..], s')
  }

  // ----- the invariant -----

  predicate DistinctStamps(vs: seq<Version>) {
    forall i, j :: 0 <= i < j < |vs| ==> vs[i].stamp != vs[j].stamp
  }

  /** The accounts are those of version i or of a later one. */
  predicate NotOlder(vs: seq<Version>, i: nat, accounts: Accounts) {
    exists j :: i <= j <= |vs| && accounts == AccountsAt(vs, j)
  }

  predicate TextNotOlder(vs: seq<Version>, i: nat, text: Option<string>) {
    exists j :: i <= j <= |vs| && text == TextAt(vs, j)
  }

  /** Filed under the timestamp of version i, the cache is no older than version i. */
  predicate CacheOk(vs: seq<Version>, loaded: Option<nat>, accounts: Accounts) {
    forall i :: 0 <= i <= |vs| && loaded == StampAt(vs, i) ==> NotOlder(vs, i, accounts)
  }

  predicate Known(vs: seq<Version>, loaded: Option<nat>) {
    exists i :: 0 <= i <= |vs| && loaded == StampAt(vs, i)
  }

  /** The cache is that of the version it came from: of `own`, or of one not older
      than its timestamp. */
  predicate Filed(s: State) {
    match s.own
    case None => CacheOk(s.versions, s.loaded, s.cache)
    case Some(i) => i <= Now(s) && s.cache == AccountsAt(s.versions, i)
  }

  predicate PcOk(s: State) {
    match s.pc
    case Idle => Filed(s)
    case Stamped(began, stamp) => began <= Now(s) && Filed(s) && stamp == StampAt(s.versions, began)
    case Loading(began) => began <= Now(s) && s.own.None?
    case Reading(began, text) => began <= Now(s) && s.own.None? && TextNotOlder(s.versions, began, text)
      && (forall i :: 0 <= i <= Now(s) && s.loaded == StampAt(s.versions, i) ==> TextNotOlder(s.versions, i, text))
    case Answering(began) => began <= Now(s) && Filed(s) && (s.own.None? ==> NotOlder(s.versions, began, s.cache))
    case Saved(wrote) => 0 < wrote <= Now(s) && s.own.None? && s.cache == AccountsAt(s.versions, wrote)
  }

  ghost predicate Inv(s: State) {
    DistinctStamps(s.versions) && Known(s.versions, s.loaded) && PcOk(s)
  }

  lemma {:induction false} StampsDiffer(vs: seq<Version>, i: nat, j: nat)
    requires DistinctStamps(vs) && i <= |vs| && j <= |vs| && StampAt(vs, i) == StampAt(vs, j)
    ensures i == j
  {
    if i < j {
      LaterStampDiffers(vs, i, j);
    } else if j < i {
      LaterStampDiffers(vs, j, i);
    }
  }

  lemma {:induction false} LaterStampDiffers(vs: seq<Version>, i: nat, j: nat)
    requires DistinctStamps(vs) && i < j <= |vs|
    ensures StampAt(vs, i) != StampAt(vs, j)
  {
    if i > 0 {
      assert vs[i - 1].stamp != vs[j - 1].stamp;
    }
  }

  lemma {:induction false} AppendKeeps(vs: seq<Version>, v: Version, i: nat, accounts: Accounts, text: Option<string>)
    ensures NotOlder(vs, i, accounts) ==> NotOlder(vs + [v], i, accounts)
    ensures TextNotOlder(vs, i, text) ==> TextNotOlder(vs + [v], i, text)
  {
    if NotOlder(vs, i, accounts) {
      var j :| i <= j <= |vs| && accounts == AccountsAt(vs, j);
      assert accounts == AccountsAt(vs + [v], j);
    }
    if TextNotOlder(vs, i, text) {
      var j :| i <= j <= |vs| && text == TextAt(vs, j);
      assert text == TextAt(vs + [v], j);
    }
  }

  lemma {:induction false} AppendKeepsAccounts(vs: seq<Version>, v: Version, i: nat)
    requires i <= |vs|
    ensures AccountsAt(vs + [v], i) == AccountsAt(vs, i)
  {
    hide Load;
  }

  lemma {:induction false} AppendKeepsStamps(vs: seq<Version>, loaded: Option<nat>, v: Version)
    requires DistinctStamps(vs) && Known(vs, loaded) && forall i :: 0 <= i < |vs| ==> vs[i].stamp != v.stamp
    ensures DistinctStamps(vs + [v]) && Known(vs + [v], loaded) && loaded != StampAt(vs + [v], |vs| + 1)
    ensures forall i :: 0 <= i <= |vs| ==> StampAt(vs + [v], i) == StampAt(vs, i)
  {
    var i :| 0 <= i <= |vs| && loaded == StampAt(vs, i);
    assert loaded == StampAt(vs + [v], i);
  }

  lemma {:induction false} ReplaceKeeps(s: State, text: string, stamp: nat)
    requires Inv(s) && Enabled(s, Replace(text, stamp))
    ensures Inv(Apply(s, Replace(text, stamp)))
  {
    hide Load, NotOlder, TextNotOlder, DistinctStamps, Known, AccountsAt;
    var v := Version(text, stamp);
    forall i: nat | i <= |s.versions| ensures AccountsAt(s.versions + [v], i) == AccountsAt(s.versions, i) {
      AppendKeepsAccounts(s.versions, v, i);
    }
    AppendKeepsStamps(s.versions, s.loaded, v);
    forall i: nat, accounts | NotOlder(s.versions, i, accounts) ensures NotOlder(s.versions + [v], i, accounts) {
      AppendKeeps(s.versions, v, i, accounts, None);
    }
    forall i: nat, t | TextNotOlder(s.versions, i, t) ensures TextNotOlder(s.versions + [v], i, t) {
      AppendKeeps(s.versions, v, i, map[], t);
    }
    var s' := Apply(s, Replace(text, stamp));
    assert s'.versions == s.versions + [v];
    assert forall i :: 0 <= i <= |s.versions| + 1 && s.loaded == StampAt(s'.versions, i) ==> i <= |s.versions| && s.loaded == StampAt(s.versions, i);
    assert CacheOk(s.versions, s.loaded, s.cache) ==> CacheOk(s'.versions, s.loaded, s.cache);
    assert PcOk(s');
  }

  lemma {:induction false} TextGivesAccounts(vs: seq<Version>, i: nat, text: Option<string>)
    requires TextNotOlder(vs, i, text)
    ensures NotOlder(vs, i, Load(text).accounts)
  {
    hide Load;
    var j :| i <= j <= |vs| && text == TextAt(vs, j);
    assert Load(text).accounts == AccountsAt(vs, j);
  }

  lemma {:induction false} OlderBound(vs: seq<Version>, i: nat, k: nat, accounts: Accounts)
    requires NotOlder(vs, i, accounts) && k <= i
    ensures NotOlder(vs, k, accounts)
  {
    hide Load;
  }

  lemma {:induction false} NewestText(vs: seq<Version>, i: nat)
    requires i <= |vs|
    ensures TextNotOlder(vs, i, TextAt(vs, |vs|))
  {
  }

  lemma {:induction false} LookupKeeps(s: State, step: Step)
    requires Inv(s) && Enabled(s, step) && !step.Replace? && !step.SaveOwn? && !step.StampOwn?
    ensures Inv(Apply(s, step))
  {
    hide Load, DistinctStamps, NotOlder, TextNotOlder;
    var s', vs := Apply(s, step), s.versions;
    match step {
      case KeepCache =>
        var i :| 0 <= i <= |vs| && s.loaded == StampAt(vs, i);
        if s.own.None? && s.pc.stamp.None? {
          assert s.pc.began == 0;
          OlderBound(vs, i, 0, s.cache);
        }
      case Drop =>
        assert s'.loaded == StampAt(vs, |vs|);
      case OpenFile =>
        forall i: nat | i <= |vs| ensures TextNotOlder(vs, i, s'.pc.text) {
          NewestText(vs, i);
        }
      case ParseFile =>
        forall i: nat | TextNotOlder(vs, i, s.pc.text) ensures NotOlder(vs, i, s'.cache) {
          TextGivesAccounts(vs, i, s.pc.text);
        }
      case _ =>
    }
  }

  lemma {:induction false} SaveKeeps(s: State, step: Step)
    requires Inv(s) && Enabled(s, step) && (step.SaveOwn? || step.StampOwn?)
    ensures Inv(Apply(s, step))
  {
    hide Load, DistinctStamps;
    var s' := Apply(s, step);
    if step.SaveOwn? {
      AppendKeepsStamps(s.versions, s.loaded, Version(step.text, step.stamp));
    } else if s'.own.None? {
      var n := |s'.versions|;
      assert s'.loaded == StampAt(s'.versions, n);
      forall i | 0 <= i <= n && s'.loaded == StampAt(s'.versions, i) ensures NotOlder(s'.versions, i, s'.cache) {
        StampsDiffer(s'.versions, i, n);
        assert s'.cache == AccountsAt(s'.versions, n);
      }
    } else {
      assert s'.loaded == StampAt(s'.versions, |s'.versions|);
    }
  }

  lemma {:induction false} RunKeeps(s: State, steps: seq<Step>, s': State)
    requires Inv(s) && Run(s, steps, s')
    ensures Inv(s')
    decreases |steps|
  {
    hide Inv, Enabled, Apply;
    if steps != [] {
      match steps[0] {
        case Replace(text, stamp) => ReplaceKeeps(s, text, stamp);
        case SaveOwn(_, _) => SaveKeeps(s, steps[0]);
        case StampOwn => SaveKeeps(s, steps[0]);
        case _ => LookupKeeps(s, steps[0]);
      }
      RunKeeps(Apply(s, steps[0]), steps[1..], s');
    }
  }

  ghost predicate Reachable(s: State) {
    exists steps :: Run(Start(), steps, s)
  }

  lemma {:induction false} ReachableInv(s: State)
    requires Reachable(s)
    ensures Inv(s)
  {
    hide Run, Inv;
    var steps :| Run(Start(), steps, s);
    assert Inv(Start()) by { StartInv(); }
    RunKeeps(Start(), steps, s);
  }

  lemma {:induction false} StartInv()
    ensures Inv(Start())
  {
    var s := Start();
    assert s.loaded == StampAt(s.versions, 0) && s.cache == AccountsAt(s.versions, 0);
  }

  /** Whenever the remembered timestamp is the file's: the remembered accounts are
      those of the file as it is now, exactly when this process has not filed a save of
      its own under a later timestamp, or the two versions have the same accounts. */
  lemma {:induction false} CacheAgreesIff(s: State)
    requires Reachable(s) && (s.pc.Idle? || s.pc.Stamped? || s.pc.Answering?) && s.loaded == StampAt(s.versions, Now(s))
    ensures s.own.Some? ==> s.own.value <= Now(s)
    ensures s.cache == AccountsAt(s.versions, Now(s)) <==>
      s.own.None? || AccountsAt(s.versions, s.own.value) == AccountsAt(s.versions, Now(s))
  {
    hide Load;
    ReachableInv(s);
    if s.own.None? {
      assert NotOlder(s.versions, Now(s), s.cache);
    }
  }

  /** A look-up answers from a version of the file that was in place at some moment
      since it began, never from an older one, with the same exception. */
  lemma {:induction false} LookupIsCurrentIff(s: State)
    requires Reachable(s) && s.pc.Answering?
    ensures s.pc.began <= Now(s) && (s.own.Some? ==> s.own.value <= Now(s))
    ensures NotOlder(s.versions, s.pc.began, s.cache) <==>
      s.own.None? || NotOlder(s.versions, s.pc.began, AccountsAt(s.versions, s.own.value))
  {
    hide Load, Run, NotOlder;
    ReachableInv(s);
  }

  /** A process that saves reads the timestamp after its rename. Whatever other
      processes put in place between the two, once or more often, the timestamp is
      that of the last, and the cache agrees with the file exactly when that one has
      the accounts this process wrote. */
  lemma {:induction false} OvertakenSave(s: State)
    requires Reachable(s) && s.pc.Saved?
    ensures 0 < s.pc.wrote <= Now(s)
    ensures var s' := Apply(s, StampOwn);
      s'.pc.Idle? && s'.loaded == StampAt(s'.versions, Now(s')) && (s'.own.Some? <==> s.pc.wrote < Now(s))
      && (s'.cache == AccountsAt(s'.versions, Now(s')) <==> AccountsAt(s.versions, s.pc.wrote) == AccountsAt(s.versions, Now(s)))
  {
    hide Load, Run;
    ReachableInv(s);
  }

  /** Such a gap is reached: two processes that save different accounts are enough. */
  lemma {:induction false} StaleIsReached(text: string, stamp: nat, later: string, laterStamp: nat) returns (s: State)
    requires stamp != laterStamp && Load(Some(text)).accounts != Load(Some(later)).accounts
    ensures Reachable(s) && s.pc.Idle? && s.loaded == StampAt(s.versions, Now(s)) && s.cache != AccountsAt(s.versions, Now(s))
  {
    hide Load;
    var steps := [SaveOwn(text, stamp), Replace(later, laterStamp), StampOwn];
    var s1 := Apply(Start(), steps[0]);
    var s2 := Apply(s1, steps[1]);
    s := Apply(s2, steps[2]);
    assert steps[1..] == [steps[1], steps[2]] && steps[1..][1..] == [steps[2]] && [steps[2]][1..] == [];
    assert Run(s, [], s) && Run(s2, [steps[2]], s) && Run(s1, steps[1..], s) && Run(Start(), steps, s);
  }

  /** No replacement and no save of this process. */
  predicate OnlyLooks(steps: seq<Step>) {
    forall i :: 0 <= i < |steps| ==> !steps[i].Replace? && !steps[i].SaveOwn?
  }

  predicate Trusting(s: State) {
    s.loaded == StampAt(s.versions, Now(s)) && (s.pc.Idle? || s.pc.Answering? || (s.pc.Stamped? && s.pc.stamp == s.loaded))
  }

  /** A stale cache stays for as many look-ups as there are until the next
      replacement or save. */
  lemma {:induction false} StaleStays(s: State, steps: seq<Step>, s': State)
    requires Trusting(s) && Run(s, steps, s') && OnlyLooks(steps)
    ensures Trusting(s') && s'.versions == s.versions && s'.cache == s.cache && s'.own == s.own
    decreases |steps|
  {
    hide Load;
    if steps != [] {
      assert !steps[0].Replace? && !steps[0].SaveOwn?;
      StaleStays(Apply(s, steps[0]), steps[1..], s');
    }
  }

  /** The next replacement ends it: the look-up after it drops the cache. */
  lemma {:induction false} ReplacementHeals(s: State, text: string, stamp: nat)
    requires Reachable(s) && s.pc.Idle? && Enabled(s, Replace(text, stamp))
    ensures var s' := Apply(Apply(s, Replace(text, stamp)), ReadStamp);
      Enabled(s', Drop) && !Enabled(s', KeepCache) && Apply(s', Drop).own.None?
  {
    hide Load, Run, PcOk;
    ReachableInv(s);
    AppendKeepsStamps(s.versions, s.loaded, Version(text, stamp));
  }
}
