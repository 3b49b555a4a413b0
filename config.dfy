/**
 * The agent's configuration store (agent/config_manager.py): a key/value
 * map loaded from a JSON file with the defaults filled in, generic get/set,
 * the list of accounts with index-checked update and removal, and the
 * download-folder and sync-interval accessors.
 *
 * The JSON file is given as its parsed contents (or as missing/unreadable);
 * writing the file back after every `set` is not modelled, since a failed
 * write is only logged and the in-memory map is what the agent reads.
 */
module Configuration {
  import opened Wrappers
  import opened Text
  import opened Seqs
  import Scheduler

  /** One configured LexNET account; each key may be absent from its JSON object. */
  datatype Account = Account(name: Option<string>, enabled: Option<bool>, certificateThumbprint: Option<string>)

  /** `account.get('enabled', True)`: an account without the key is enabled. */
  predicate Enabled(a: Account) {
    a.enabled.GetOr(true)
  }

  /** The JSON values the configuration holds. */
  datatype Value = Null | Bool(b: bool) | Int(i: int) | Str(s: string) | AccountList(accounts: seq<Account>)

  /** Python truthiness of a configuration value. */
  predicate Truthy(v: Value) {
    match v
    case Null => false
    case Bool(b) => b
    case Int(i) => i != 0
    case Str(s) => s != ""
    case AccountList(a) => a != []
  }

  type Config = map<string, Value>

  /** The keys of `DEFAULT_CONFIG`, in their order of insertion. */
  const DefaultKeys: seq<string> := ["download_folder", "sync_interval_minutes", "headless", "auto_start", "accounts"]

  /** `DEFAULT_CONFIG`. */
  const DefaultConfig: Config := map[
    "download_folder" := Str(""),
    "sync_interval_minutes" := Int(30),
    "headless" := Bool(true),
    "auto_start" := Bool(false),
    "accounts" := AccountList([])
  ]

  /** The state of the configuration file when the store is opened:
      Unreadable is an open or read error or text that is not JSON, the two
      failures `_load_config` catches. */
  datatype ConfigFile = Missing | Unreadable | Parsed(contents: Config)

  /** `dict.get(key, default)`. */
  function Lookup(cfg: Config, key: string, default: Value): Value {
    if key in cfg then cfg[key] else default
  }

  /**
   * The configuration `_load_config` yields: the file's entries with every
   * missing default key added, or the defaults alone when the file is
   * missing, cannot be opened, or is not well-formed JSON.
   */
  function Loaded(file: ConfigFile): (cfg: Config)
    ensures forall k :: k in DefaultConfig ==> k in cfg
    ensures file.Parsed? ==> forall k :: k in file.contents ==> k in cfg && cfg[k] == file.contents[k]
    ensures forall k :: k in cfg && !(file.Parsed? && k in file.contents) ==>
      k in DefaultConfig && cfg[k] == DefaultConfig[k]
  {
    match file
    case Parsed(contents) =>
      map k | k in contents.Keys + DefaultConfig.Keys :: if k in contents then contents[k] else DefaultConfig[k]
    case _ => DefaultConfig
  }

  /** Every key of the default configuration is listed in `DefaultKeys`. */
  lemma DefaultKeysComplete()
    ensures forall k :: k in DefaultConfig <==> k in DefaultKeys
  {
    assert DefaultConfig.Keys == {"download_folder", "sync_interval_minutes", "headless", "auto_start", "accounts"};
  }

  /** `_load_config`: walks the default entries, adding each key the file lacks. */
  method LoadConfig(file: ConfigFile) returns (cfg: Config)
    ensures cfg == Loaded(file)
  {
    if !file.Parsed? {
      return DefaultConfig;
    }
    DefaultKeysComplete();
    cfg := file.contents;
    for i := 0 to |DefaultKeys|
      invariant forall k :: k in cfg <==> k in file.contents || k in DefaultKeys[..i]
      invariant forall k :: k in cfg ==> cfg[k] == if k in file.contents then file.contents[k] else DefaultConfig[k]
    {
      var key := DefaultKeys[i];
      assert DefaultKeys[..i + 1] == DefaultKeys[..i] + [key];
      if key !in cfg {
        cfg := cfg[key := DefaultConfig[key]];
      }
    }
    assert DefaultKeys[..|DefaultKeys|] == DefaultKeys;
  }

  /** The folder used when none is configured: `~/VentoLexNet`. */
  function HomeDownloadFolder(home: string): (folder: string)
    ensures folder != ""
  {
    JoinPath(home, "VentoLexNet")
  }

  /**
   * The download folder `get_download_folder` reports: the stored folder when
   * it is truthy, otherwise `~/VentoLexNet`. The result is never falsy, so it
   * is never the empty path.
   */
  function DownloadFolderOf(cfg: Config, home: string): (v: Value)
    ensures Truthy(v)
    ensures Truthy(Lookup(cfg, "download_folder", Str(""))) ==> v == cfg["download_folder"]
    ensures !Truthy(Lookup(cfg, "download_folder", Str(""))) ==> v == Str(HomeDownloadFolder(home))
  {
    var folder := Lookup(cfg, "download_folder", Str(""));
    if Truthy(folder) then folder else Str(HomeDownloadFolder(home))
  }

  /** The configuration store. */
  class ConfigManager {
    var config: Config

    /** Opens the store on the given file state. */
    constructor (file: ConfigFile)
      ensures config == Loaded(file)
    {
      var cfg := LoadConfig(file);
      config := cfg;
    }

    /** `get(key, default)`. */
    function Get(key: string, default: Value): (v: Value)
      reads this
      ensures key in config ==> v == config[key]
      ensures key !in config ==> v == default
    {
      Lookup(config, key, default)
    }

    /** `set(key, value)`: only that key changes. */
    method Set(key: string, value: Value)
      modifies this
      ensures config == old(config)[key := value]
      ensures Get(key, Null) == value
      ensures forall k, d :: k != key ==> Get(k, d) == old(Get(k, d))
    {
      config := config[key := value];
    }

    /** `get_accounts`: the stored list, an empty list when the key is
        absent, and None when the stored value is not a list (a later
        `append` or index access on it would raise). */
    function Accounts(): (r: Option<seq<Account>>)
      reads this
      ensures "accounts" !in config ==> r == Some([])
      ensures "accounts" in config ==> (r.Some? <==> config["accounts"].AccountList?)
      ensures "accounts" in config && r.Some? ==> r.value == config["accounts"].accounts
    {
      match Get("accounts", AccountList([]))
      case AccountList(accounts) => Some(accounts)
      case _ => None
    }

    /** `add_account`: appends at the end of the list. */
    method AddAccount(account: Account) returns (ok: bool)
      modifies this
      ensures ok <==> old(Accounts()).Some?
      ensures ok ==> Accounts() == Some(old(Accounts()).value + [account])
      ensures ok ==> config == old(config)["accounts" := AccountList(old(Accounts()).value + [account])]
      ensures !ok ==> config == old(config)
    {
      var accounts := Accounts();
      if accounts.None? {
        return false;
      }
      Set("accounts", AccountList(accounts.value + [account]));
      return true;
    }

    /** `update_account`: an index inside the list replaces that entry only;
        any other index changes nothing. */
    method UpdateAccount(index: int, account: Account) returns (updated: bool)
      modifies this
      ensures updated <==> old(Accounts()).Some? && 0 <= index < |old(Accounts()).value|
      ensures updated ==> Accounts() == Some(old(Accounts()).value[index := account])
      ensures updated ==> config == old(config)["accounts" := AccountList(old(Accounts()).value[index := account])]
      ensures !updated ==> config == old(config)
    {
      var accounts := Accounts();
      if accounts.Some? && 0 <= index < |accounts.value| {
        Set("accounts", AccountList(accounts.value[index := account]));
        return true;
      }
      return false;
    }

    /** `remove_account`: an index inside the list deletes that entry and
        keeps the rest in order; any other index changes nothing. */
    method RemoveAccount(index: int) returns (removed: bool)
      modifies this
      ensures removed <==> old(Accounts()).Some? && 0 <= index < |old(Accounts()).value|
      ensures removed ==> Accounts() == Some(RemoveAt(old(Accounts()).value, index))
      ensures removed ==> config == old(config)["accounts" := AccountList(RemoveAt(old(Accounts()).value, index))]
      ensures !removed ==> config == old(config)
    {
      var accounts := Accounts();
      if accounts.Some? && 0 <= index < |accounts.value| {
        Set("accounts", AccountList(RemoveAt(accounts.value, index)));
        return true;
      }
      return false;
    }

    /** `get_download_folder`. */
    function DownloadFolder(home: string): (v: Value)
      reads this
      ensures Truthy(v)
      ensures v == DownloadFolderOf(config, home)
    {
      DownloadFolderOf(config, home)
    }

    /** `set_download_folder`. */
    method SetDownloadFolder(folder: string)
      modifies this
      ensures config == old(config)["download_folder" := Str(folder)]
      ensures folder != "" ==> forall home :: DownloadFolder(home) == Str(folder)
    {
      Set("download_folder", Str(folder));
    }

    /** `get_sync_interval`: 30 when the key is absent. */
    function SyncInterval(): (v: Value)
      reads this
      ensures "sync_interval_minutes" !in config ==> v == Int(30)
      ensures "sync_interval_minutes" in config ==> v == config["sync_interval_minutes"]
    {
      Get("sync_interval_minutes", Int(30))
    }

    /** `set_sync_interval`: stores the interval clamped to [5, 1440]. */
    method SetSyncInterval(minutes: int)
      modifies this
      ensures config == old(config)["sync_interval_minutes" := Int(Scheduler.ClampInterval(minutes))]
      ensures SyncInterval().Int? && Scheduler.MinIntervalMinutes <= SyncInterval().i <= Scheduler.MaxIntervalMinutes
    {
      Set("sync_interval_minutes", Int(Scheduler.ClampInterval(minutes)));
    }
  }
}
