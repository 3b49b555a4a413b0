# Vento LexOps agent — a verified model of its bookkeeping

The Vento LexOps desktop agent downloads LexNET court notifications for the
accounts configured on a Windows machine. It runs in the background. It
synchronises every account on a fixed interval or at set times of day, saves
each notification in a dated folder, and shows a tray notice when something
new arrived.

This project models in Dafny the logic around the browser, the certificate
store and the GUI, and proves its properties. It covers five pieces:

- **Multi-account pass** (`agent.dfy`, module `Agent`):
  - `sync_all_accounts` visits the accounts in order and skips disabled ones.
  - An account whose pass raised contributes nothing, and later accounts still count.
  - It records the total and the time of the pass, and shows a notice only for a positive total.
  - Also modelled: `scheduled_sync` and the pause and quit actions.
- **LexNET automator bookkeeping** (`lexnet.dfy`, module `LexNet`):
  - The `YYYY-MM-DD/<court>_<procedure>` destination of each notification.
  - The `NotificationInfo` download state.
  - The counting download loops with their early returns.
  - The browser handle, which every pass closes.
- **Schedulers** (`scheduler.dfy`, module `Scheduler`):
  - Interval clamping to [5, 1440].
  - The running flag, and the fixed-delay `next_run`.
  - The next occurrence of a time of day.
  - The daily scheduler's choice of the earliest configured time.
- **Configuration store** (`config.dfy`, module `Configuration`):
  - The key/value map with defaults filled on load, and `get`/`set`.
  - Index-checked account update and removal.
  - The download-folder default and the sync-interval accessors.
- **Certificate helpers** (`certificates.dfy`, module `Certificates`):
  - Common Name extraction and the priority-ordered issuer family.
  - The validity window and the order-preserving filters.
  - Case-insensitive thumbprint search.
  - The load-once certificate cache and the `.pfx`/`.p12` gate.

Shared helpers model the Python primitives the code relies on:

- `text.dfy`, module `Text`: `str.strip`, `split`/`join`, substring `in`, ASCII case mapping, `isalnum`, `format(n, '02d')`, `ntpath.splitext` and `pathlib` joins.
- `seqs.dfy`, module `Seqs`: list comprehensions as order-preserving filters, counting loops and `list.pop(i)`.
- `wrappers.dfy`: the `Option` type.

Collaborators become parameters, as follows:

- **Time** is an integer number of seconds on the naive local clock, and every day has 86400 seconds.
- **The browser** is a pair of oracles: whether a browser starts, and whether sign-in finishes.
- **The inbox** is the list of pending notifications.
- **Saving each notification** succeeds or fails per item.
- **Each account's whole automator pass** is either `Synced(n)` or `Failed`.
- **Creating the download folder** is a predicate on paths, which never accepts the empty path, as Python's `os.makedirs` does not.
- **The Windows certificate store** is the list it yields, or None when reading it raised.
- **The PKCS#12 library** is the outcome it reports.

Stateful pieces are classes whose methods update their fields: `SyncScheduler`, `DailyScheduler`, `ConfigManager`, `NotificationInfo`, `LexNetAutomator`, `CertificateManager` and `VentoAgent`. Pure pieces are functions, and the properties are proved as lemmas beside them.

Two behaviours of the code are treated specially:

- The code never clears `_next_run` between cycles. This is modelled as written: `TimeUntilNextRun` is therefore None only before the first cycle.
- The pass reads the download folder with `config.get(...)` rather than `get_download_folder()`. `Agent.VentoAgent.SyncAllAccounts` uses the corrected `get_download_folder()` read. The read as written is `Agent.AsWrittenPassFolder`, and `Agent.AsWrittenPassAbortsWithDefaultFolder` shows where the two differ. See Findings.

## Model

| member | source | states |
|---|---|---|
| Text.Strip | agent/certificate_manager.py:28 | `str.strip()`: the result is the slice of the input from its first to its last non-whitespace character; it neither starts nor ends with whitespace, and every non-whitespace character of the input lies inside it |
| Text.StripMembers | agent/lexnet_automator.py:344 | stripping keeps only characters of the input and keeps every non-whitespace one |
| Text.Split | agent/certificate_manager.py:27 | `split(',')`: at least one piece, no piece contains the separator, and joining the pieces with the separator gives back the input |
| Text.SplitJoin | agent/certificate_manager.py:27 | splitting the join of separator-free pieces gives back exactly those pieces |
| Text.ContainsIffOccurs | agent/certificate_manager.py:43-50 | the substring test `sub in s` holds iff `sub` occurs at some position of `s` |
| Text.ZeroPad | agent/scheduler.py:101 | zero padding gives only digits, of length max(width, digit count), whose decimal value is the number |
| Text.Extension | agent/certificate_manager.py:307 | `splitext(...)[1]`: a suffix of the path that is empty or a dot followed by no other dot, with no separator |
| Text.ExtensionFound | agent/certificate_manager.py:307 | the extension is non-empty iff the last component has a dot preceded by some character other than a dot |
| Text.ExtensionOfName | agent/certificate_manager.py:307 | a name that ends in a dot, no further dot and no separator, after a stem not ending in a dot or separator, has exactly that ending as its extension |
| Seqs.Filter | agent/certificate_manager.py:292 | a comprehension `[x for x in s if p(x)]` keeps, in order, exactly the elements satisfying `p`, each as often as in `s` |
| Seqs.CountTrue | agent/lexnet_automator.py:428-430 | the success count is at most the number of items, zero iff none succeeded, and the full length iff all did |
| Seqs.CountTrueSnoc | agent/lexnet_automator.py:428-430 | counting one more item adds one exactly when that item succeeded |
| Seqs.RemoveAt | agent/config_manager.py:82 | `list.pop(i)`: one element shorter, elements before `i` unchanged, elements after shifted down by one |
| Certificates.FirstCommonName | agent/certificate_manager.py:27-30 | the search loop of `common_name`; `FirstCommonNameAt` and `FirstCommonNameNone` state that it returns the first stripped `CN=` component without its prefix, or None when there is none |
| Certificates.CommonName | agent/certificate_manager.py:24-31 | the CN value of the subject; `CommonNameIsFirstCN` and `CommonNameFallsBackToSubject` state that it is the first `CN=` component, else the whole subject |
| Certificates.CommonNameIsFirstCN | agent/certificate_manager.py:24-31 | when the i-th comma component, stripped, is the first to start with `CN=`, the Common Name is that component after `CN=` |
| Certificates.CommonNameFallsBackToSubject | agent/certificate_manager.py:24-31 | with no `CN=` component the Common Name is the whole subject |
| Certificates.FirstCommonNameAt | agent/certificate_manager.py:27-30 | the search loop returns the first matching component, without its prefix |
| Certificates.FirstCommonNameNone | agent/certificate_manager.py:31 | the search loop finds nothing when no component matches |
| Certificates.IssuerType | agent/certificate_manager.py:39-52 | the issuer family; `IssuerTypeIsFirstMention`, `IssuerTypeOther` and `IssuerTypeIgnoresCase` state that it is the first family, in priority order, whose markers the issuer mentions ignoring case, else `Otro` |
| Certificates.IssuerTypeIsFirstMention | agent/certificate_manager.py:39-52 | the family is the i-th of FNMT, ACA, DNIe, Camerfirma iff the lower-cased issuer mentions a marker of that family and none of an earlier one |
| Certificates.IssuerTypeOther | agent/certificate_manager.py:51-52 | an issuer mentioning no marker is classified `Otro` |
| Certificates.IssuerTypeIgnoresCase | agent/certificate_manager.py:42 | the family does not depend on the case of the issuer's letters |
| Certificates.IsValid | agent/certificate_manager.py:33-37 | validity at an explicit instant: `valid_from <= now <= valid_to`; `ValidCertificates` and `CertificateManager.GetValidCertificates` state that exactly the certificates satisfying it are kept |
| Certificates.ValidCertificates | agent/certificate_manager.py:290-292 | an order-preserving sublist holding exactly the certificates with `valid_from <= now <= valid_to` |
| Certificates.CertificatesByIssuer | agent/certificate_manager.py:294-297 | an order-preserving sublist holding exactly the certificates whose family label equals the query, both upper-cased |
| Certificates.KindNamesDistinct | agent/certificate_manager.py:43-52 | different families have labels that differ even after upper-casing |
| Certificates.CertificatesByIssuerSelectsFamily | agent/certificate_manager.py:294-297 | querying a family's label in any case selects every certificate of that family and no other |
| Certificates.FindByThumbprint | agent/certificate_manager.py:285-288 | None iff no thumbprint matches ignoring case; otherwise the first certificate that matches |
| Certificates.CertificateManager.constructor | agent/certificate_manager.py:69-71 | a new manager has an empty cache and is not loaded |
| Certificates.CertificateManager.ListCertificates | agent/certificate_manager.py:73-91 | loaded and not refreshing: the cache, untouched; off Windows or when the store raised: empty, the cache cleared and the loaded flag unchanged; otherwise the store's list, cached and marked loaded |
| Certificates.CertificateManager.GetCertificateByThumbprint | agent/certificate_manager.py:283-288 | returns the first listed certificate whose thumbprint matches ignoring case, or None iff none matches; a loaded cache is read and kept, whatever the store now holds; otherwise the store's list is cached and marked loaded, or, off Windows or when the store raised, the cache is emptied and stays unloaded |
| Certificates.CertificateManager.GetValidCertificates | agent/certificate_manager.py:290-292 | the valid certificates of the listing, in order; a loaded cache is read and kept, whatever the store now holds; otherwise the store's list is cached and marked loaded, or, off Windows or when the store raised, the cache is emptied and stays unloaded |
| Certificates.CertificateManager.GetCertificatesByIssuer | agent/certificate_manager.py:294-297 | the certificates of the listing that match the family query, in order; a loaded cache is read and kept, whatever the store now holds; otherwise the store's list is cached and marked loaded, or, off Windows or when the store raised, the cache is emptied and stays unloaded |
| Certificates.LoadCertificateFromFile | agent/certificate_manager.py:299-349 | a missing file fails with the "El archivo no existe" message; an extension other than `.pfx`/`.p12` (compared lower-cased) fails with the "Formato no soportado" message; success holds iff the file exists, the extension is accepted and the bundle parses or the library is missing, with the subject or the base name in the message; a parse error gives "Contraseña incorrecta" iff its text mentions `password` or `mac` |
| Certificates.BaseName | agent/certificate_manager.py:347 | `os.path.basename`: the part of the path after the drive and after the last `/` or `\`, holding no separator |
| Certificates.UpperCasePfxAccepted | agent/certificate_manager.py:307-309 | a `.PFX` file with a parsable certificate is accepted |
| Scheduler.ClampInterval | agent/scheduler.py:67-70 | `max(5, min(1440, m))` lies in [5, 1440], is `m` inside that range, 5 below it and 1440 above it |
| Scheduler.ClampIntervalIdempotent | agent/scheduler.py:67-70 | clamping twice equals clamping once |
| Scheduler.ClampIntervalMonotone | agent/scheduler.py:70 | clamping preserves the order of intervals |
| Scheduler.SyncScheduler.constructor | agent/scheduler.py:16-22 | a new scheduler is stopped, has no next run and keeps the interval unclamped |
| Scheduler.SyncScheduler.Start | agent/scheduler.py:24-33 | afterwards the scheduler runs; the interval and next run are unchanged, so a second start changes nothing |
| Scheduler.SyncScheduler.Stop | agent/scheduler.py:35-40 | afterwards the scheduler is stopped whatever it was before, so no later wake fires the callback; nothing else changes |
| Scheduler.SyncScheduler.SetInterval | agent/scheduler.py:67-71 | stores the clamped interval; the running flag and the instant already waited for are kept |
| Scheduler.SyncScheduler.TimeUntilNextRun | agent/scheduler.py:61-65 | None iff no next run was computed; otherwise `now` plus the result is the next run |
| Scheduler.SyncScheduler.BeginCycle | agent/scheduler.py:44-53 | a cycle is planned iff the scheduler runs, and then waits for `now + interval` minutes; the callback then fires at exactly the instants from that one on |
| Scheduler.SyncScheduler.IsRunning | agent/scheduler.py:77-80 | the running flag, which `Start` sets and `Stop` clears |
| Scheduler.Firings | agent/scheduler.py:42-53 | one firing per callback plus one, the first one interval after the start |
| Scheduler.FiringsAreFixedDelay | agent/scheduler.py:44-53 | consecutive firings are exactly the interval plus the previous callback's duration apart (fixed delay, not fixed rate) |
| Scheduler.NextOccurrence | agent/scheduler.py:90-98 | for a valid time: strictly after `now`, at most a day later, on that hour and minute with zero seconds; None (the `ValueError`) iff the hour or minute is out of range |
| Scheduler.NextOccurrenceIsEarliest | agent/scheduler.py:90-98 | no instant after `now` with that time of day comes before the next occurrence |
| Scheduler.ScheduleTimeString | agent/scheduler.py:100-101 | `str` of a time; `ScheduleTimeStringRoundTrip` states that it is `HH:MM` and reads back as the time |
| Scheduler.ScheduleTimeStringRoundTrip | agent/scheduler.py:100-101 | `str` of a valid time is five characters `HH:MM` whose two fields read back as the hour and minute |
| Scheduler.EarliestOccurrence | agent/scheduler.py:133-137 | defined iff the list is non-empty and every time is valid; then it is one of the next occurrences and no later than any of them |
| Scheduler.OccurrenceOnWholeMinute | agent/scheduler.py:93 | every next occurrence falls on a whole minute |
| Scheduler.TimeOfDayOnWholeMinute | agent/scheduler.py:93 | an instant whose time of day is an hour and minute is a whole number of minutes |
| Scheduler.NoDoubleFiring | agent/scheduler.py:131-149 | once the earliest time has been reached, the next wake is at least a minute after it, so one time of day fires once per day |
| Scheduler.DailyScheduler.constructor | agent/scheduler.py:107-111 | one time per entry, a missing minute meaning 0; the scheduler is stopped |
| Scheduler.DailyScheduler.Start | agent/scheduler.py:113-120 | afterwards the scheduler runs |
| Scheduler.DailyScheduler.Stop | agent/scheduler.py:125-129 | afterwards the scheduler is stopped |
| Scheduler.DailyScheduler.NextWake | agent/scheduler.py:133-139 | the instant a cycle waits for lies within the coming day |
| Configuration.Loaded | agent/config_manager.py:29-42 | every default key is present, every key of a parsed file keeps its file value, and any other key holds its default |
| Configuration.LoadConfig | agent/config_manager.py:29-42 | the loop over the defaults yields exactly that merged configuration |
| Configuration.DefaultKeysComplete | agent/config_manager.py:10-16 | the loop visits exactly the keys of `DEFAULT_CONFIG` |
| Configuration.ConfigManager.constructor | agent/config_manager.py:19-27 | the store opens holding the loaded configuration |
| Configuration.ConfigManager.Get | agent/config_manager.py:52-54 | the stored value when the key is present, the given default otherwise |
| Configuration.ConfigManager.Set | agent/config_manager.py:56-59 | afterwards `get` of that key gives the value and every other key gives what it gave before |
| Configuration.ConfigManager.Accounts | agent/config_manager.py:61-63 | the stored list, the empty list when the key is absent, None when the stored value is not a list |
| Configuration.ConfigManager.AddAccount | agent/config_manager.py:65-69 | appends at the end: the list grows by one and the earlier entries are unchanged |
| Configuration.ConfigManager.UpdateAccount | agent/config_manager.py:71-76 | with `0 <= i < len` only position `i` is replaced; any other index changes nothing |
| Configuration.ConfigManager.RemoveAccount | agent/config_manager.py:78-83 | with `0 <= i < len` position `i` is deleted and the others keep their order; any other index changes nothing |
| Configuration.HomeDownloadFolder | agent/config_manager.py:89 | the fallback folder under the home directory is never empty |
| Configuration.DownloadFolderOf | agent/config_manager.py:85-90 | the stored folder when truthy, otherwise `~/VentoLexNet`; never falsy |
| Configuration.ConfigManager.DownloadFolder | agent/config_manager.py:85-90 | `get_download_folder` on the store's map, never falsy |
| Configuration.ConfigManager.SetDownloadFolder | agent/config_manager.py:92-94 | stores the folder under `download_folder` and changes no other key; a non-empty folder is then the folder reported, whatever the home directory |
| Configuration.ConfigManager.SyncInterval | agent/config_manager.py:96-98 | 30 when the key is unset, the stored value otherwise |
| Configuration.ConfigManager.SetSyncInterval | agent/config_manager.py:100-102 | the stored interval is an integer in [5, 1440] |
| LexNet.DateFolderName | agent/lexnet_automator.py:341 | `strftime('%Y-%m-%d')`; `DateFolderNameRoundTrip` and `DateFolderNameHasNoSeparator` state that it is `YYYY-MM-DD`, reads back as the date and is one path component |
| LexNet.DateFolderNameRoundTrip | agent/lexnet_automator.py:341 | the date folder is `YYYY-MM-DD`, ten characters whose three fields read back as the date |
| LexNet.DateFolderNameHasNoSeparator | agent/lexnet_automator.py:341 | the date folder is a non-empty single path component |
| LexNet.SafeCourt | agent/lexnet_automator.py:344 | at most 30 characters, all alphanumerics, space, `-` or `_` taken from the first 30 of the court, no space at either end, and every allowed non-space character of that prefix kept |
| LexNet.SafeProcedure | agent/lexnet_automator.py:345 | same length, no `/`, every `/` turned into `-` and every other character unchanged |
| LexNet.FolderName | agent/lexnet_automator.py:344-347 | the notification's folder name is non-empty and contains no separator |
| LexNet.JoinPathTwice | agent/lexnet_automator.py:341-347 | joining two components below a root adds exactly one separator before each |
| LexNet.DestinationFolder | agent/lexnet_automator.py:341-347 | the notification folder; `DestinationSpelledOut` and `DestinationComponents` state that it is the root, then the date folder, then `<court>_<procedure>` |
| LexNet.DestinationSpelledOut | agent/lexnet_automator.py:341-347 | the destination is `<root>/<date folder>/<court>_<procedure>` |
| LexNet.DestinationComponents | agent/lexnet_automator.py:341-347 | below the root the destination splits into exactly the date folder and the notification's folder |
| LexNet.NotificationInfo.constructor | agent/lexnet_automator.py:31-47 | a new notification is not downloaded, has no download path and no files |
| LexNet.LexNetAutomator.constructor | agent/lexnet_automator.py:60-66 | a new automator has no browser open |
| LexNet.LexNetAutomator.Login | agent/lexnet_automator.py:149-234 | a browser is launched only if none is open; login succeeds iff a browser is open and the sign-in steps finish |
| LexNet.LexNetAutomator.DownloadNotification | agent/lexnet_automator.py:334-389 | on success the notification becomes downloaded with its destination as download path; on failure it returns false and the notification is untouched |
| LexNet.LexNetAutomator.DownloadEach | agent/lexnet_automator.py:428-430 | the loop returns the number of notifications saved, and only the saved ones are changed, each marked downloaded into its destination |
| LexNet.LexNetAutomator.Close | agent/lexnet_automator.py:465-473 | afterwards no browser is open, whatever the state before |
| LexNet.LexNetAutomator.CheckNotifications | agent/lexnet_automator.py:391-411 | the pending list after a successful login, the empty list otherwise; the browser ends closed |
| LexNet.LexNetAutomator.DownloadNotifications | agent/lexnet_automator.py:413-439 | an empty list gives 0 without login or close; a failed login gives 0 and leaves every notification untouched; otherwise the number saved, at most the list length, and every notification counted is saved to its destination; the file lists are never changed; non-empty calls end closed |
| LexNet.LexNetAutomator.SyncNotifications | agent/lexnet_automator.py:441-463 | always logs in first and always ends closed; a failed login gives 0 and leaves every notification untouched; otherwise the number saved, and every notification counted is saved to its destination; the file lists are never changed |
| Agent.Contribution | agent/vento_agent.py:132-152 | one account's share of the total: 0 when disabled or failed, its count otherwise; `ContributionWithinTotal` states that each share is part of the total |
| Agent.TotalNew | agent/vento_agent.py:130-152 | the `total_new` the loop accumulates; `TotalNewIgnoresDisabled`, `TotalNewIsolatesFailure`, `ContributionWithinTotal` and `TotalNewZero` state its meaning, and `VentoAgent.SyncAllAccounts` is proved to compute it |
| Agent.TotalNewIgnoresDisabled | agent/vento_agent.py:132-134 | the outcomes of disabled accounts, where a missing `enabled` means enabled, do not affect the total |
| Agent.TotalNewIsolatesFailure | agent/vento_agent.py:141-154 | an account whose pass raises loses exactly its own contribution; all other accounts still count |
| Agent.ContributionWithinTotal | agent/vento_agent.py:141-154 | every enabled, successful account's count is part of the total |
| Agent.TotalNewZero | agent/vento_agent.py:130-154 | when every account is disabled or failed the total is zero |
| Agent.VentoAgent.constructor | agent/vento_agent.py:41-49 | a new agent is inactive, has no last sync, a zero count and no scheduler |
| Agent.VentoAgent.SyncAllAccounts | agent/vento_agent.py:120-166 | no accounts: nothing changes; folder not created or accounts not a list: aborted, nothing changes; otherwise the total of enabled, successful accounts is recorded with the pass time, and a notice is added iff the total is positive |
| Agent.VentoAgent.ScheduledSync | agent/vento_agent.py:168-172 | a pass runs iff the agent is active; with no configured accounts it stops there; it completes iff there are accounts and the folder is created, and then records the total, the time and a notice for a positive total; in every other case the last sync, the count and the notices are unchanged; the activity flag and scheduler are kept |
| Agent.VentoAgent.OnTogglePause | agent/vento_agent.py:96-102 | the activity flag is negated, so toggling twice restores it, and the matching notice is shown |
| Agent.VentoAgent.OnQuit | agent/vento_agent.py:104-110 | afterwards the agent is inactive and its scheduler, if any, is stopped with its interval and next run unchanged |
| Agent.AsWrittenPassFolder | agent/vento_agent.py:127 | the folder the pass reads falls back to `~/VentoLexNet` only when the key is absent |
| Agent.AsWrittenPassAbortsWithDefaultFolder | agent/vento_agent.py:127-128 | with the default configuration plus one account, the folder read is empty, so `makedirs` raises whatever the file system does, while `get_download_folder` gives the home folder |

## Findings

| source | as written | input that shows it | evidently intended | confidence | as-written member | corrected member |
|---|---|---|---|---|---|---|
| agent/vento_agent.py:127-128 | `config.get('download_folder', '~/VentoLexNet')` falls back only when the key is absent. `DEFAULT_CONFIG` stores `''`, so `os.makedirs('')` raises `FileNotFoundError` and the pass ends before any account is synchronised | a first start with no configuration file, then one account added with `add_account` and no folder chosen | use `get_download_folder()` (agent/config_manager.py:85-90), which substitutes `~/VentoLexNet` for a falsy folder | medium, not executed | Agent.AsWrittenPassAbortsWithDefaultFolder | Agent.VentoAgent.SyncAllAccounts |

## Left out

- Browser driving through Selenium is left out because it calls a foreign library and scrapes pages. This covers browser setup, the Chrome fallback, navigating to the page, the certificate dialog and `get_pending_notifications`, with its mock fallback when the table is empty. Their results are the oracles described above.
- File writes are not modelled, because they are I/O: `metadata.json`, `NOTIFICACION.txt`, the `mkdir` calls, the removal of the temporary download folder, and the JSON load and save of the configuration. Failures appear only through the per-item and folder oracles. A failed configuration save is only logged in the source.
- `_load_windows_certificates`, the PowerShell and `win32crypt` calls, the mock certificates, `get_certificate_info_from_file` and the PKCS#12 parsing are foreign calls. They are represented by the store and PKCS#12 outcomes.
- Threads, `time.sleep` polling, `join` timeouts, the lock in `set_interval` and `trigger_now` are left out because they only matter for concurrency. A loop cycle is a method call at an explicit instant.
- The tray icon, its menu, `on_sync_now`, `on_open_config`, `on_open_folder`, `run_with_tray`, `run_console` and `config_window.py` are UI and are left out. `show_notification` is recorded as the message the agent asked to show, whether or not an icon exists.
- Time is counted in whole seconds: microseconds are dropped and every day has 86400 seconds. Daylight-saving transitions of the naive local clock are not modelled.
- Scheduler.DailyScheduler.NextWake: the sort of `(time, occurrence)` pairs is replaced by their minimum, which is the head the loop reads. The pause of 60 seconds after a firing is covered only as "the next cycle starts no earlier than the firing".
- Text.IsAlnum: exact for characters below U+0100. Characters from U+0100 upwards are treated as not alphanumeric, although Python accepts many of them.
- Text.Lower: only ASCII letters are case-mapped, not the full Unicode mapping.
- Text.Upper: only ASCII letters are case-mapped, not the full Unicode mapping, so thumbprints with non-ASCII letters may compare differently.
- Certificates.BaseName: only a drive letter prefix `X:` is removed. UNC prefixes such as `\\server\share` are not split off as a drive.
- A configuration file that is not valid UTF-8 makes the JSON load raise `UnicodeDecodeError`, which `_load_config` does not catch, so the manager is never created. The model does not represent that failure.
- Paths use `/` as the only separator, and the root is taken as already normalised. Windows backslashes, drive letters and the normalisation pathlib applies to the root are not modelled.
- LexNet.DateFolderNameRoundTrip: `%Y` is taken as zero-padded to four digits, as the Windows C runtime prints it. Some C libraries print years below 1000 with fewer digits.
- LexNet.NotificationInfo.constructor: the `account_name`, `certificate_thumbprint`, `certificate_file` and `certificate_password` fields, with their `''` defaults, are not modelled, because no modelled operation reads them.
- Scheduler.DailyScheduler.constructor: every entry is taken to have an `hour`. An entry without `hour` makes `t['hour']` raise `KeyError` in the daily scheduler's constructor, and the model does not represent that failure.
- Configuration.Account: `enabled` is a boolean or absent. A JSON `null`, `0` or `""` there is falsy in Python and corresponds to `Some(false)`.
- A configuration file whose top level is not a JSON object is left out. Python raises on it while filling the defaults, and the manager is never created.
- `DEFAULT_CONFIG.copy()` is shallow, so a store opened on the defaults shares its `accounts` list with `DEFAULT_CONFIG`. The value model does not capture that aliasing.
- Configuration.ConfigManager.Accounts: a stored `accounts` value that is not a list is reported as None, and the add, update and remove methods then change nothing. Python would raise or behave according to that value's own type.
- Agent.VentoAgent.SyncAllAccounts: account entries are records. An entry that is not a JSON object would make Python raise while walking the list. The `headless` flag, the account name and the thumbprint passed to each automator only reach the oracle.
- `to_dict` of the configuration and of `CertificateInfo` only copy data and are left out.
