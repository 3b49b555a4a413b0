/**
 * The desktop agent (agent/vento_agent.py): one synchronisation pass over
 * the configured accounts, the scheduled pass that only runs while the agent
 * is active, and the pause and quit actions.
 *
 * Each account's pass through its own LexNET automator is an oracle:
 * outcome(i) is the count the i-th account's `sync_notifications` returned,
 * or Failed when constructing or running its automator raised. Creating the
 * download folder is an oracle too (`fsOk`), behind Python's own refusal of
 * the empty path. Tray notifications are recorded as the messages the agent
 * asked to show.
 */
module Agent {
  import opened Wrappers
  import opened Text
  import opened Configuration
  import opened Scheduler

  /** What one account's automator pass gave. */
  datatype SyncOutcome = Synced(count: nat) | Failed

  /** What one account adds to the pass total: nothing when it is disabled
      or its pass raised. */
  function Contribution(a: Account, o: SyncOutcome): nat {
    if !Enabled(a) then 0
    else match o
      case Synced(n) => n
      case Failed => 0
  }

  /** The total of a pass over `accounts`, account i having outcome(i). */
  function TotalNew(accounts: seq<Account>, outcome: nat -> SyncOutcome): nat
    decreases |accounts|
  {
    if accounts == [] then 0
    else
      var last := |accounts| - 1;
      TotalNew(accounts[..last], outcome) + Contribution(accounts[last], outcome(last))
  }

  /** `outcome`, except that account k's pass raised. */
  function FailedAt(outcome: nat -> SyncOutcome, k: nat): nat -> SyncOutcome {
    (i: nat) => if i == k then Failed else outcome(i)
  }

  /** Disabled accounts are skipped: the outcomes of disabled accounts do not
      affect the total. */
  lemma {:induction false} TotalNewIgnoresDisabled(accounts: seq<Account>, o1: nat -> SyncOutcome, o2: nat -> SyncOutcome)
    requires forall i :: 0 <= i < |accounts| && Enabled(accounts[i]) ==> o1(i) == o2(i)
    ensures TotalNew(accounts, o1) == TotalNew(accounts, o2)
    decreases |accounts|
  {
    if accounts != [] {
      var last := |accounts| - 1;
      assert forall i :: 0 <= i < last ==> accounts[..last][i] == accounts[i];
      TotalNewIgnoresDisabled(accounts[..last], o1, o2);
    }
  }

  /** A failing account is isolated: it loses exactly its own contribution
      and every other account, before or after it, still counts. */
  lemma {:induction false} TotalNewIsolatesFailure(accounts: seq<Account>, outcome: nat -> SyncOutcome, k: nat)
    requires k < |accounts|
    ensures TotalNew(accounts, FailedAt(outcome, k)) + Contribution(accounts[k], outcome(k))
      == TotalNew(accounts, outcome)
    decreases |accounts|
  {
    var last := |accounts| - 1;
    var prefix := accounts[..last];
    if k < last {
      assert accounts[k] == prefix[k];
      TotalNewIsolatesFailure(prefix, outcome, k);
    } else {
      TotalNewIgnoresDisabled(prefix, FailedAt(outcome, k), outcome);
    }
  }

  /** Each account's contribution is part of the total. */
  lemma {:induction false} ContributionWithinTotal(accounts: seq<Account>, outcome: nat -> SyncOutcome, k: nat)
    requires k < |accounts|
    ensures Contribution(accounts[k], outcome(k)) <= TotalNew(accounts, outcome)
  {
    TotalNewIsolatesFailure(accounts, outcome, k);
  }

  /** A pass in which every account is disabled or failed totals zero. */
  lemma {:induction false} TotalNewZero(accounts: seq<Account>, outcome: nat -> SyncOutcome)
    requires forall i :: 0 <= i < |accounts| ==> !Enabled(accounts[i]) || outcome(i).Failed?
    ensures TotalNew(accounts, outcome) == 0
    decreases |accounts|
  {
    if accounts != [] {
      var last := |accounts| - 1;
      assert forall i :: 0 <= i < last ==> accounts[..last][i] == accounts[i];
      TotalNewZero(accounts[..last], outcome);
    }
  }

  /** `os.makedirs(path, exist_ok=True)` returns normally: Python raises on
      the empty path, and otherwise the file system decides. */
  predicate MakeDirs(path: string, fsOk: string -> bool) {
    path != "" && fsOk(path)
  }

  /** Whether the download folder a pass uses was created: a folder value
      that is not a string makes `makedirs` raise. */
  predicate FolderCreated(folder: Value, fsOk: string -> bool) {
    folder.Str? && MakeDirs(folder.s, fsOk)
  }

  /** The message shown after a pass that downloaded something. */
  function NewNotificationsMessage(total: nat): string {
    "Se han descargado " + Decimal(total) + " nuevas notificaciones"
  }

  /** The message shown after pausing or resuming. */
  function ToggleMessage(running: bool): string {
    "Sincronizaci\U{f3}n " + (if running then "reanudada" else "pausada")
  }

  /** How a pass ended: no accounts configured, aborted by an exception
      before or while walking the list, or completed with a total. */
  datatype PassResult = NoAccounts | Aborted | Completed(total: nat)

  /** The agent: its configuration, activity flag, the outcome of the last
      pass, the notices it showed, and the interval scheduler once started. */
  class VentoAgent {
    const config: ConfigManager
    var running: bool
    var lastSync: Option<int>
    var newNotificationsCount: nat
    var notices: seq<string>
    var scheduler: SyncScheduler?

    constructor (config: ConfigManager)
      ensures this.config == config
      ensures !running && lastSync == None && newNotificationsCount == 0
      ensures notices == [] && scheduler == null
    {
      this.config := config;
      running := false;
      lastSync := None;
      newNotificationsCount := 0;
      notices := [];
      scheduler := null;
    }

    /** The `accounts` value a pass reads. */
    function ConfiguredAccounts(): Value
      reads config
    {
      config.Get("accounts", AccountList([]))
    }

    /**
     * `sync_all_accounts` at instant `now`. Without accounts nothing changes.
     * When the download folder cannot be created, or the accounts value is
     * not a list, the pass raises and nothing changes. Otherwise every
     * account is visited in order, the total of the enabled accounts that
     * did not fail is recorded with the time of the pass, and a notice is
     * shown exactly when the total is positive. The folder is the one
     * `get_download_folder` reports.
     */
    method SyncAllAccounts(now: int, home: string, fsOk: string -> bool, outcome: nat -> SyncOutcome)
      returns (r: PassResult)
      modifies this
      ensures r == NoAccounts <==> !Truthy(ConfiguredAccounts())
      ensures r.Completed? <==>
        (Truthy(ConfiguredAccounts()) && ConfiguredAccounts().AccountList? && FolderCreated(config.DownloadFolder(home), fsOk))
      ensures r.Completed? ==> r.total == TotalNew(ConfiguredAccounts().accounts, outcome)
      ensures r.Completed? ==> lastSync == Some(now) && newNotificationsCount == r.total
      ensures r.Completed? ==> notices == old(notices) + (if r.total > 0 then [NewNotificationsMessage(r.total)] else [])
      ensures !r.Completed? ==>
        (lastSync == old(lastSync) && newNotificationsCount == old(newNotificationsCount) && notices == old(notices))
      ensures running == old(running) && scheduler == old(scheduler)
    {
      var accounts := config.Get("accounts", AccountList([]));
      if !Truthy(accounts) {
        return NoAccounts;
      }
      var folder := config.DownloadFolder(home);
      if !FolderCreated(folder, fsOk) || !accounts.AccountList? {
        return Aborted;
      }
      var list := accounts.accounts;
      var total: nat := 0;
      for i := 0 to |list|
        invariant total == TotalNew(list[..i], outcome)
      {
        assert list[..i + 1][..i] == list[..i];
        var account := list[i];
        if !Enabled(account) {
          continue;
        }
        match outcome(i)
        case Synced(n) =>
          total := total + n;
        case Failed =>
      }
      assert list[..|list|] == list;
      lastSync := Some(now);
      newNotificationsCount := total;
      if total > 0 {
        notices := notices + [NewNotificationsMessage(total)];
      }
      return Completed(total);
    }

    /** `scheduled_sync`: a pass runs only while the agent is active;
        otherwise nothing changes. */
    method ScheduledSync(now: int, home: string, fsOk: string -> bool, outcome: nat -> SyncOutcome)
      returns (r: Option<PassResult>)
      modifies this
      ensures r.Some? <==> old(running)
      ensures r.Some? ==> (r.value == NoAccounts <==> !Truthy(ConfiguredAccounts()))
      ensures r.Some? ==> (r.value.Completed? <==>
        (Truthy(ConfiguredAccounts()) && ConfiguredAccounts().AccountList? && FolderCreated(config.DownloadFolder(home), fsOk)))
      ensures r.Some? && r.value.Completed? ==>
        (ConfiguredAccounts().AccountList? && r.value.total == TotalNew(ConfiguredAccounts().accounts, outcome)
         && lastSync == Some(now) && newNotificationsCount == r.value.total
         && notices == old(notices) + (if r.value.total > 0 then [NewNotificationsMessage(r.value.total)] else []))
      ensures !(r.Some? && r.value.Completed?) ==>
        (lastSync == old(lastSync) && newNotificationsCount == old(newNotificationsCount) && notices == old(notices))
      ensures running == old(running) && scheduler == old(scheduler)
    {
      if !running {
        return None;
      }
      var pass := SyncAllAccounts(now, home, fsOk, outcome);
      return Some(pass);
    }

    /** `on_toggle_pause`: flips the activity flag (so two toggles restore
        it) and shows which way it went. */
    method OnTogglePause()
      modifies this
      ensures running == !old(running)
      ensures notices == old(notices) + [ToggleMessage(running)]
      ensures lastSync == old(lastSync) && newNotificationsCount == old(newNotificationsCount)
      ensures scheduler == old(scheduler)
    {
      running := !running;
      notices := notices + [ToggleMessage(running)];
    }

    /** `on_quit`: the agent stops being active and its scheduler, if any,
        is stopped. */
    method OnQuit()
      modifies this, scheduler
      ensures !running && scheduler == old(scheduler)
      ensures scheduler != null ==>
        (!scheduler.running && scheduler.intervalMinutes == old(scheduler.intervalMinutes)
         && scheduler.nextRun == old(scheduler.nextRun))
      ensures lastSync == old(lastSync) && newNotificationsCount == old(newNotificationsCount)
      ensures notices == old(notices)
    {
      running := false;
      if scheduler != null {
        scheduler.Stop();
      }
    }
  }

  // ---------------------------------------------------------------------------
  // The download folder as the pass is written
  // ---------------------------------------------------------------------------

  /** The folder value lines 127-128 of the pass actually read:
      `config.get('download_folder', '~/VentoLexNet')`, which only falls back
      when the key is absent. */
  function AsWrittenPassFolder(cfg: Config, home: string): (v: Value)
    ensures "download_folder" in cfg ==> v == cfg["download_folder"]
    ensures "download_folder" !in cfg ==> v == Str(HomeDownloadFolder(home))
  {
    Lookup(cfg, "download_folder", Str(HomeDownloadFolder(home)))
  }

  /**
   * A new installation with one account added and no folder chosen keeps the
   * default empty folder, so the pass as written asks `makedirs` for the
   * empty path and raises before any account is synchronised, whatever the
   * file system does. The folder `get_download_folder` reports is the home
   * folder instead, and the pass proceeds when it can be created.
   */
  lemma AsWrittenPassAbortsWithDefaultFolder(home: string, fsOk: string -> bool, account: Account)
    ensures var cfg := Loaded(Missing)["accounts" := AccountList([account])];
      && Truthy(Lookup(cfg, "accounts", AccountList([])))
      && AsWrittenPassFolder(cfg, home) == Str("")
      && !FolderCreated(AsWrittenPassFolder(cfg, home), fsOk)
      && DownloadFolderOf(cfg, home) == Str(HomeDownloadFolder(home))
      && (fsOk(HomeDownloadFolder(home)) ==> FolderCreated(DownloadFolderOf(cfg, home), fsOk))
  {
    var cfg := Loaded(Missing)["accounts" := AccountList([account])];
    assert cfg["download_folder"] == Str("");
  }
}
