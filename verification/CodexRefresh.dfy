/** scripts/codex_refresh.py, the OpenBao path: no refresh token is lost silently. */
module CodexRefresh {
  // Every grant may replace the refresh token, every write may fail, and the only copy of the new token must not
  // get lost without a word. `Refreshed` is one run for one account as a function of its state and of what the
  // outside world answers; the class does it step by step.

  import opened Wrappers

  type Token = nat

  /** The empty refresh token. */
  const NO_TOKEN: Token := 0

  /** An access token, of which only the `exp` claim matters here, and its refresh token. */
  datatype Pair = Pair(exp: Option<int>, refresh: Token)

  datatype Recovery = Absent | Unreadable | Kept(exp: int, refresh: Token)

  /** The newest pair the provider granted; its refresh token is the one live token of the account. */
  datatype Account = Account(record: Pair, recovery: Recovery, newest: Pair, announced: bool)

  /** The provider's answer to a grant with the live token; `next` is a replaced refresh token. */
  datatype Answer =
    | Refused
    | NoAccess(next: Option<Token>)
    | Granted(exp: Option<int>, next: Option<Token>)

  /** A failed write may have reached OpenBao before it failed. */
  datatype StoreResult = Stored | StoreFailed(applied: bool)

  /** What the outside world does in one run. */
  datatype World = World(
    due: bool, answer: Answer, store: StoreResult, keeps: bool, unlinksStale: bool, unlinksUsed: bool, blockWritten: bool)

  /* ---- the state after each step ---- */

  function FileOf(p: Pair): Recovery {
    if p.refresh == NO_TOKEN || p.exp.None? then Unreadable else Kept(p.exp.value, p.refresh)
  }

  /** The recovery file counts only when it expires after the record. */
  predicate UsesRecovery(a: Account) {
    a.recovery.Kept? && (a.record.exp.Some? ==> a.recovery.exp > a.record.exp.value)
  }

  /** The pair that a run starts from. */
  function Chosen(a: Account): Pair {
    if UsesRecovery(a) then Pair(Some(a.recovery.exp), a.recovery.refresh) else a.record
  }

  function AfterLook(a: Account, w: World): Account {
    if a.recovery.Kept? && !UsesRecovery(a) && w.unlinksStale then a.(recovery := Absent) else a
  }

  function NextToken(next: Option<Token>, current: Token): Token {
    if next.Some? && next.value != NO_TOKEN then next.value else current
  }

  predicate Asks(p: Pair, w: World) {
    w.due && p.refresh != NO_TOKEN
  }

  /** A token that is not the live one is always refused. */
  function AnswerTo(a: Account, p: Pair, w: World): Answer {
    if p.refresh == a.newest.refresh then w.answer else Refused
  }

  function AfterGrant(a: Account, p: Pair, w: World): Account {
    if !Asks(p, w) then a
    else match AnswerTo(a, p, w)
      case Refused => a
      case NoAccess(next) => a.(newest := a.newest.(refresh := NextToken(next, a.newest.refresh)))
      case Granted(exp, next) => a.(newest := Pair(exp, NextToken(next, p.refresh)))
  }

  datatype Renewal = NotDue | Failed | Fresh(pair: Pair)

  function Renewed(a: Account, p: Pair, w: World): Renewal {
    if !w.due then NotDue
    else if p.refresh == NO_TOKEN then Failed
    else match AnswerTo(a, p, w)
      case Granted(exp, next) => Fresh(Pair(exp, NextToken(next, p.refresh)))
      case _ => Failed
  }

  function AfterStore(a: Account, p: Pair, w: World): Account {
    if w.store.Stored? then a.(record := p)
    else
      var written := if w.store.applied then a.(record := p) else a;
      if w.keeps then written.(recovery := FileOf(p)) else written.(announced := true)
  }

  /** One run of `_refresh_bao` and its verdict. */
  function Refreshed(a: Account, w: World): (Account, bool) {
    var p, looked := Chosen(a), AfterLook(a, w);
    var granted, renewal := AfterGrant(looked, p, w), Renewed(looked, p, w);
    if renewal.Failed? then (granted, false)
    else if renewal.NotDue? && !UsesRecovery(a) then (granted, true)
    else
      var stored := AfterStore(granted, if renewal.Fresh? then renewal.pair else p, w);
      (if w.store.Stored? && UsesRecovery(a) && w.unlinksUsed then stored.(recovery := Absent) else stored,
       w.store.Stored? && w.blockWritten)
  }

  /* ---- the promise ---- */

  /** Until a loss is announced, the next run starts from the newest pair, so with the live token. */
  predicate Safe(a: Account) {
    a.announced || Chosen(a) == a.newest
  }

  /** No recovery file expires after the newest pair. */
  predicate Bounded(a: Account) {
    && a.newest.exp.Some? && a.newest.refresh != NO_TOKEN
    && (a.recovery.Kept? ==> a.recovery.exp <= a.newest.exp.value)
  }

  /** The provider's answers: failing leaves the token alone, and a granted access token expires later than any before. */
  predicate Orderly(a: Account, w: World) {
    match w.answer
    case Refused => true
    case NoAccess(next) => NextToken(next, a.newest.refresh) == a.newest.refresh
    case Granted(exp, _) => exp.Some? && a.newest.exp.Some? && exp.value > a.newest.exp.value
  }

  lemma RefreshKeepsSafe(a: Account, w: World)
    requires Safe(a) && Bounded(a) && Orderly(a, w)
    ensures Safe(Refreshed(a, w).0) && Bounded(Refreshed(a, w).0)
    ensures a.announced ==> Refreshed(a, w).0.announced
  {
  }

  function RefreshedAll(a: Account, worlds: seq<World>): Account {
    if worlds == [] then a
    else Refreshed(RefreshedAll(a, worlds[..|worlds| - 1]), worlds[|worlds| - 1]).0
  }

  ghost predicate OrderlyAll(a: Account, worlds: seq<World>) {
    forall i :: 0 <= i < |worlds| ==> Orderly(RefreshedAll(a, worlds[..i]), worlds[i])
  }

  /**
   * Over any number of runs, with every write, removal and grant succeeding or failing as it likes: until a
   * loss is announced the next run starts from the newest pair. So the live token is stored where it will be
   * found, and no older recovery file is used in place of a newer record.
   */
  lemma {:induction false} NoSilentLoss(a: Account, worlds: seq<World>)
    requires Safe(a) && Bounded(a) && OrderlyAll(a, worlds)
    ensures Safe(RefreshedAll(a, worlds)) && Bounded(RefreshedAll(a, worlds))
  {
    if worlds != [] {
      var n := |worlds| - 1;
      var before := worlds[..n];
      forall i | 0 <= i < n
        ensures Orderly(RefreshedAll(a, before[..i]), before[i])
      {
        assert before[..i] == worlds[..i];
      }
      NoSilentLoss(a, before);
      assert Orderly(RefreshedAll(a, worlds[..n]), worlds[n]);
      RefreshKeepsSafe(RefreshedAll(a, before), worlds[n]);
    }
  }

  /* ---- the promise is only as good as the answers ---- */

  predicate SilentlyLost(a: Account) {
    !a.announced && Chosen(a).refresh != a.newest.refresh
  }

  /** What is stored of a pair that was not written does not hide it: it has the same refresh token or expires earlier. */
  predicate RecordGivesWay(a: Account, exp: Option<int>, refresh: Token) {
    || a.record.refresh == refresh
    || (exp.Some? && (a.record.exp.Some? ==> exp.value > a.record.exp.value))
  }

  /** Nor does a recovery file that is still there: it has the same refresh token or does not expire later. */
  predicate FileGivesWay(a: Account, exp: Option<int>, refresh: Token) {
    a.recovery.Kept? ==> a.recovery.refresh == refresh || (exp.Some? && exp.value >= a.recovery.exp)
  }

  /** An answer after which the live token is found again, whatever becomes of the writes. */
  predicate SafeAnswer(a: Account, answer: Answer) {
    match answer
    case Refused => true
    case NoAccess(next) => NextToken(next, a.newest.refresh) == a.newest.refresh
    case Granted(exp, next) =>
      var refresh := NextToken(next, a.newest.refresh);
      RecordGivesWay(a, exp, refresh) && FileGivesWay(a, exp, refresh)
  }

  /** The run starts from the live token. */
  predicate StartsLive(a: Account) {
    !a.announced && Chosen(a).refresh == a.newest.refresh && a.newest.refresh != NO_TOKEN
  }

  lemma SafeAnswerKeepsToken(a: Account, w: World)
    requires StartsLive(a) && (w.due ==> SafeAnswer(a, w.answer))
    ensures !SilentlyLost(Refreshed(a, w).0)
  {
  }

  /** The writes with which an answer that is not safe loses the token: one failed store, or a file that stays. */
  lemma UnsafeAnswerLoses(a: Account, answer: Answer)
    requires StartsLive(a) && !SafeAnswer(a, answer)
    ensures
      || SilentlyLost(Refreshed(a, World(true, answer, StoreFailed(false), true, false, false, true)).0)
      || SilentlyLost(Refreshed(a, World(true, answer, Stored, true, false, false, true)).0)
  {
  }

  /**
   * For every answer, one that replaces the refresh token or not: the token is safe whatever the writes do if and only
   * if the answer is safe for what is stored. A grant is when the new pair expires later than the record and not
   * before the recovery file, or what is not outlived holds the very same refresh token.
   */
  lemma AnswerIsSafeExactly(a: Account, answer: Answer)
    requires StartsLive(a)
    ensures
      (forall w: World :: w.due && w.answer == answer ==> !SilentlyLost(Refreshed(a, w).0)) <==> SafeAnswer(a, answer)
  {
    if SafeAnswer(a, answer) {
      forall w: World | w.due && w.answer == answer
        ensures !SilentlyLost(Refreshed(a, w).0)
      {
        SafeAnswerKeepsToken(a, w);
      }
    } else {
      UnsafeAnswerLoses(a, answer);
    }
  }

  /** Every run that asks gets an answer that is safe for what is stored by then. */
  ghost predicate SafeAll(a: Account, worlds: seq<World>) {
    forall i :: 0 <= i < |worlds| && worlds[i].due ==> SafeAnswer(RefreshedAll(a, worlds[..i]), worlds[i].answer)
  }

  lemma AnnouncedStays(a: Account, w: World)
    requires a.announced
    ensures Refreshed(a, w).0.announced
  {
  }

  lemma TokenStays(a: Account, w: World)
    requires a.newest.refresh != NO_TOKEN
    ensures Refreshed(a, w).0.newest.refresh != NO_TOKEN
  {
  }

  /** Over any number of runs with safe answers, until a loss is announced each run starts from the live token. */
  lemma {:induction false} SafeAnswersNeverLose(a: Account, worlds: seq<World>)
    requires StartsLive(a) && SafeAll(a, worlds)
    ensures RefreshedAll(a, worlds).announced || StartsLive(RefreshedAll(a, worlds))
    ensures RefreshedAll(a, worlds).newest.refresh != NO_TOKEN
  {
    if worlds != [] {
      var n := |worlds| - 1;
      var before, w := RefreshedAll(a, worlds[..n]), worlds[n];
      forall i | 0 <= i < n && worlds[..n][i].due
        ensures SafeAnswer(RefreshedAll(a, worlds[..n][..i]), worlds[..n][i].answer)
      {
        assert worlds[..n][..i] == worlds[..i];
      }
      SafeAnswersNeverLose(a, worlds[..n]);
      TokenStays(before, w);
      if before.announced {
        AnnouncedStays(before, w);
      } else {
        SafeAnswerKeepsToken(before, w);
      }
    }
  }

  /** The expiry of a new pair that no outcome of the writes can hide. */
  predicate Findable(a: Account, exp: Option<int>) {
    && exp.Some?
    && (a.record.exp.Some? ==> exp.value > a.record.exp.value)
    && (a.recovery.Kept? ==> exp.value >= a.recovery.exp)
  }

  /** `next` is a token that is neither the account's own nor the record's. */
  predicate IsNew(a: Account, next: Token) {
    next != NO_TOKEN && next != a.newest.refresh && next != a.record.refresh
  }

  /**
   * So a grant that replaces the refresh token is safe whatever the writes do if and only if the new access
   * token has an integer expiry later than the record's and no earlier than the recovery file's.
   */
  lemma ReplacedTokenIsSafeExactly(a: Account, exp: Option<int>, next: Token)
    requires !a.announced && Chosen(a) == a.newest && a.newest.refresh != NO_TOKEN && IsNew(a, next)
    ensures
      (forall w: World :: w.due && w.answer == Granted(exp, Some(next)) ==> !SilentlyLost(Refreshed(a, w).0)) <==>
      Findable(a, exp)
  {
    AnswerIsSafeExactly(a, Granted(exp, Some(next)));
  }

  /** An answer without an access token that replaced the refresh token loses it, and nothing says so. */
  lemma ReplacedWithoutAccessIsLost(a: Account, w: World, next: Token)
    requires !a.announced && Chosen(a) == a.newest && a.newest.refresh != NO_TOKEN && IsNew(a, next)
    requires w.due && w.answer == NoAccess(Some(next))
    ensures SilentlyLost(Refreshed(a, w).0)
  {
  }

  /* ---- the verdict of a run ---- */

  /** A run that says it went well has left the live token in the record, for an account that started with it. */
  lemma GoodRunRecordsLiveToken(a: Account, w: World)
    requires StartsLive(a) && Refreshed(a, w).1
    ensures Refreshed(a, w).0.record.refresh == Refreshed(a, w).0.newest.refresh
    ensures Refreshed(a, w).0.announced == a.announced
  {
  }

  /** A run in which the provider gives no new access token fails, whatever is stored. */
  lemma RefusedRunFails(a: Account, w: World)
    requires w.due && !w.answer.Granted?
    ensures !Refreshed(a, w).1
    ensures Refreshed(a, w).0.record == a.record && Refreshed(a, w).0.announced == a.announced
  {
  }

  /** So does one that has no refresh token, or one that the provider has replaced since. */
  lemma StaleRunFails(a: Account, w: World)
    requires w.due && (Chosen(a).refresh == NO_TOKEN || Chosen(a).refresh != a.newest.refresh)
    ensures !Refreshed(a, w).1 && Refreshed(a, w).0.record == a.record && Refreshed(a, w).0.newest == a.newest
  {
  }

  /**
   * A granted pair is stored under the replaced refresh token, or under the old one when the answer holds none, and the
   * run went well exactly when that and the write of the rc file did.
   */
  lemma GrantedRunStores(a: Account, w: World, exp: Option<int>, next: Token)
    requires StartsLive(a) && w.due && next != NO_TOKEN
    requires
      || w.answer == Granted(exp, Some(next))
      || (w.answer in {Granted(exp, None), Granted(exp, Some(NO_TOKEN))} && next == a.newest.refresh)
    ensures
      var (after, ok) := Refreshed(a, w);
      && (ok <==> w.store == Stored && w.blockWritten)
      && (w.store == Stored ==> after.record == Pair(exp, next)) && after.newest == Pair(exp, next)
      && (w.store.StoreFailed? && exp.Some? && w.keeps ==> after.recovery == Kept(exp.value, next))
      && (w.store.StoreFailed? && !w.keeps ==> after.announced)
  {
  }

  /** A run before its time changes nothing and went well, unless a newer pair is kept: that is then stored. */
  lemma EarlyRunStoresKeptPair(a: Account, w: World)
    requires !w.due
    ensures a.recovery == Absent ==> Refreshed(a, w) == (a, true)
    ensures
      a.recovery.Kept? && (a.record.exp.None? || a.recovery.exp > a.record.exp.value) ==>
        var (after, ok) := Refreshed(a, w);
        && (ok <==> w.store == Stored && w.blockWritten)
        && (w.store == Stored ==> after.record == Pair(Some(a.recovery.exp), a.recovery.refresh))
        && (w.store == Stored && w.unlinksUsed ==> after.recovery == Absent)
    ensures
      a.recovery.Kept? && a.record.exp.Some? && a.recovery.exp <= a.record.exp.value ==>
        Refreshed(a, w) == (a.(recovery := if w.unlinksStale then Absent else a.recovery), true)
  {
  }

  /* ---- the machine ---- */

  /** The OpenBao secret, the recovery files and the provider, by account. */
  class Machine {
    var accounts: map<string, Account>

    /** `_recovered` */
    method Recovered(slug: string, access: Option<int>, w: World) returns (found: Option<Pair>)
      requires slug in accounts && access == accounts[slug].record.exp
      modifies this
      ensures accounts == old(accounts)[slug := AfterLook(old(accounts[slug]), w)]
      ensures found == if UsesRecovery(old(accounts[slug])) then Some(Chosen(old(accounts[slug]))) else None
    {
      var a := accounts[slug];
      found := None;
      match a.recovery
      case Absent =>
      case Unreadable =>
      case Kept(exp, refresh) =>
        if access.Some? && exp <= access.value {
          if w.unlinksStale {
            accounts := accounts[slug := a.(recovery := Absent)];
          }
        } else {
          found := Some(Pair(Some(exp), refresh));
        }
    }

    /** `_renew`: the grant is the only thing that changes the newest pair. */
    method Renew(slug: string, p: Pair, w: World) returns (renewal: Renewal)
      requires slug in accounts
      modifies this
      ensures accounts == old(accounts)[slug := AfterGrant(old(accounts[slug]), p, w)]
      ensures renewal == Renewed(old(accounts[slug]), p, w)
    {
      if !w.due {
        return NotDue;
      }
      if p.refresh == NO_TOKEN {
        return Failed;
      }
      var a := accounts[slug];
      match if p.refresh == a.newest.refresh then w.answer else Refused
      case Refused => renewal := Failed;
      case NoAccess(next) =>
        accounts := accounts[slug := a.(newest := a.newest.(refresh := NextToken(next, a.newest.refresh)))];
        renewal := Failed;
      case Granted(exp, next) =>
        var pair := Pair(exp, NextToken(next, p.refresh));
        accounts := accounts[slug := a.(newest := pair)];
        renewal := Fresh(pair);
    }

    /** `_store_or_recover` */
    method StoreOrRecover(slug: string, p: Pair, w: World) returns (stored: bool)
      requires slug in accounts
      modifies this
      ensures accounts == old(accounts)[slug := AfterStore(old(accounts[slug]), p, w)]
      ensures stored == w.store.Stored?
    {
      var a := accounts[slug];
      if w.store.Stored? || w.store.applied {
        a := a.(record := p);
      }
      stored := w.store.Stored?;
      if !stored {
        if w.keeps {
          a := a.(recovery := FileOf(p));
        } else {
          a := a.(announced := true);
        }
      }
      accounts := accounts[slug := a];
    }

    /** `_refresh_bao`, on the pair that was read for the account when the run began. */
    method RefreshBao(secret: Pair, slug: string, w: World) returns (ok: bool)
      requires slug in accounts && secret == accounts[slug].record
      modifies this
      ensures accounts == old(accounts)[slug := Refreshed(old(accounts[slug]), w).0]
      ensures ok == Refreshed(old(accounts[slug]), w).1
    {
      ghost var start, a := accounts, accounts[slug];
      var recovered := Recovered(slug, secret.exp, w);
      var p := if recovered.Some? then recovered.value else secret;
      var renewal := Renew(slug, p, w);
      assert accounts == start[slug := AfterGrant(AfterLook(a, w), p, w)];
      if renewal.Failed? {
        return false;
      }
      if renewal.NotDue? && recovered.None? {
        return true;
      }
      var q := if renewal.Fresh? then renewal.pair else p;
      var stored := StoreOrRecover(slug, q, w);
      assert accounts == start[slug := AfterStore(AfterGrant(AfterLook(a, w), p, w), q, w)];
      if stored && recovered.Some? && w.unlinksUsed {
        accounts := accounts[slug := accounts[slug].(recovery := Absent)];
      }
      return stored && w.blockWritten;
    }

    /** `run_openbao`: the secret is read once, before any account is refreshed. */
    method Run(slugs: seq<string>, worlds: map<string, World>) returns (failures: nat)
      requires forall i, j :: 0 <= i < j < |slugs| ==> slugs[i] != slugs[j]
      requires forall s :: s in slugs ==> s in accounts && s in worlds
      modifies this
      ensures accounts.Keys == old(accounts.Keys)
      ensures forall s :: s in accounts ==>
                accounts[s] == if s in slugs then Refreshed(old(accounts)[s], worlds[s]).0 else old(accounts)[s]
      ensures failures == Failures(old(accounts), slugs, worlds)
    {
      var secret := accounts;
      failures := 0;
      assert slugs[..0] == [];
      for k := 0 to |slugs|
        invariant accounts.Keys == secret.Keys
        invariant forall s :: s in accounts ==>
                    accounts[s] == if s in slugs[..k] then Refreshed(secret[s], worlds[s]).0 else secret[s]
        invariant failures == Failures(secret, slugs[..k], worlds)
      {
        var slug := slugs[k];
        assert slug !in slugs[..k];
        assert slugs[..k + 1] == slugs[..k] + [slug];
        FailuresOneMore(secret, slugs[..k], slug, worlds);
        var ok := RefreshBao(secret[slug].record, slug, worlds[slug]);
        if !ok {
          failures := failures + 1;
        }
      }
      assert slugs[..|slugs|] == slugs;
    }
  }

  /** How many runs from the given states say that they failed. */
  function Failures(accounts: map<string, Account>, slugs: seq<string>, worlds: map<string, World>): nat
    requires forall s :: s in slugs ==> s in accounts && s in worlds
  {
    if slugs == [] then 0
    else
      var last := slugs[|slugs| - 1];
      Failures(accounts, slugs[..|slugs| - 1], worlds) + if Refreshed(accounts[last], worlds[last]).1 then 0 else 1
  }

  lemma FailuresOneMore(accounts: map<string, Account>, slugs: seq<string>, slug: string, worlds: map<string, World>)
    requires forall s :: s in slugs ==> s in accounts && s in worlds
    requires slug in accounts && slug in worlds
    ensures Failures(accounts, slugs + [slug], worlds) ==
            Failures(accounts, slugs, worlds) + if Refreshed(accounts[slug], worlds[slug]).1 then 0 else 1
  {
    assert (slugs + [slug])[..|slugs + [slug]| - 1] == slugs;
  }
}
