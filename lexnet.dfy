/**
 * The bookkeeping of the LexNET automator (agent/lexnet_automator.py): the
 * notification record and its download state, the destination folder each
 * notification is saved under, the counting download loops with their early
 * returns, and the browser handle that every pass closes.
 *
 * The browser is an oracle: `browserStarts` says whether a browser could be
 * launched, `signedIn` whether the sign-in steps finished, `pending` is the
 * list the inbox page yields, and saved[i] whether writing the i-th
 * notification's folder and files succeeded.
 */
module LexNet {
  import opened Wrappers
  import opened Text
  import opened Seqs

  /** The calendar date of a notification's `received_date`. */
  datatype Date = Date(year: int, month: int, day: int)

  predicate LeapYear(y: int) {
    y % 4 == 0 && (y % 100 != 0 || y % 400 == 0)
  }

  function DaysInMonth(y: int, m: int): int {
    if m == 2 then (if LeapYear(y) then 29 else 28)
    else if m == 4 || m == 6 || m == 9 || m == 11 then 30
    else 31
  }

  /** A date `datetime` can hold. */
  predicate ValidDate(d: Date) {
    1 <= d.year <= 9999 && 1 <= d.month <= 12 && 1 <= d.day <= DaysInMonth(d.year, d.month)
  }

  /** `strftime('%Y-%m-%d')`. */
  function DateFolderName(d: Date): string {
    FormatInt(d.year, 4) + "-" + FormatInt(d.month, 2) + "-" + FormatInt(d.day, 2)
  }

  /** A date's folder name is `YYYY-MM-DD`, and its three fields read back as the date. */
  lemma DateFolderNameRoundTrip(d: Date)
    requires ValidDate(d)
    ensures var s := DateFolderName(d);
      && |s| == 10 && s[4] == '-' && s[7] == '-'
      && AllDigits(s[..4]) && DigitsValue(s[..4]) == d.year
      && AllDigits(s[5..7]) && DigitsValue(s[5..7]) == d.month
      && AllDigits(s[8..]) && DigitsValue(s[8..]) == d.day
  {
    DecimalLength(d.year, 4);
    DecimalLength(d.month, 2);
    DecimalLength(d.day, 2);
    var y, m, dd := ZeroPad(d.year, 4), ZeroPad(d.month, 2), ZeroPad(d.day, 2);
    var s := DateFolderName(d);
    assert s == y + "-" + m + "-" + dd;
    assert s[..4] == y && s[5..7] == m && s[8..] == dd;
  }

  /** The characters the court part of a folder name keeps. */
  predicate IsCourtChar(c: char) {
    IsAlnum(c) || c == ' ' || c == '-' || c == '_'
  }

  /** The longest prefix of the court name that is kept. */
  const CourtPrefixLength: nat := 30

  function CourtPrefix(court: string): string {
    if |court| <= CourtPrefixLength then court else court[..CourtPrefixLength]
  }

  /**
   * The court part of the folder name: the first 30 characters, filtered to
   * alphanumerics, space, `-` and `_`, with surrounding whitespace stripped.
   * Every kept character comes from the prefix, and every allowed non-space
   * character of the prefix is kept.
   */
  function SafeCourt(court: string): (r: string)
    ensures |r| <= CourtPrefixLength
    ensures forall c :: c in r ==> IsCourtChar(c) && c in CourtPrefix(court)
    ensures r == [] || (r[0] != ' ' && r[|r| - 1] != ' ')
    ensures forall c :: c in CourtPrefix(court) && IsCourtChar(c) && !IsSpace(c) ==> c in r
  {
    var prefix := CourtPrefix(court);
    var kept := Filter(prefix, IsCourtChar);
    assert forall c :: c in kept ==> IsCourtChar(c) && c in prefix by {
      forall c | c in kept ensures IsCourtChar(c) && c in prefix {
        var i :| 0 <= i < |kept| && kept[i] == c;
      }
    }
    assert forall c :: c in prefix && IsCourtChar(c) ==> c in kept by {
      forall c | c in prefix && IsCourtChar(c) ensures c in kept {
        var i :| 0 <= i < |prefix| && prefix[i] == c;
      }
    }
    StripMembers(kept);
    Strip(kept)
  }

  /** The procedure part of the folder name: every `/` becomes `-`. */
  function SafeProcedure(procedure: string): (r: string)
    ensures |r| == |procedure|
    ensures '/' !in r
    ensures forall i :: 0 <= i < |r| ==> r[i] == if procedure[i] == '/' then '-' else procedure[i]
  {
    seq(|procedure|, i requires 0 <= i < |procedure| => if procedure[i] == '/' then '-' else procedure[i])
  }

  /** The name of a notification's own folder, `<court>_<procedure>`. */
  function FolderName(court: string, procedure: string): (name: string)
    ensures '/' !in name && name != ""
  {
    var c := SafeCourt(court);
    assert !IsCourtChar('/');
    assert '/' !in c;
    c + "_" + SafeProcedure(procedure)
  }

  /**
   * The folder a notification is saved under:
   * `<root>/<YYYY-MM-DD>/<court>_<procedure>`.
   */
  function DestinationFolder(root: string, received: Date, court: string, procedure: string): string {
    JoinPath(JoinPath(root, DateFolderName(received)), FolderName(court, procedure))
  }

  /** A date's folder name holds only digits and dashes, so no separator. */
  lemma DateFolderNameHasNoSeparator(d: Date)
    requires ValidDate(d)
    ensures DateFolderName(d) != [] && '/' !in DateFolderName(d)
  {
    var y, m, dd := ZeroPad(d.year, 4), ZeroPad(d.month, 2), ZeroPad(d.day, 2);
    assert DateFolderName(d) == y + "-" + m + "-" + dd;
    assert '/' !in y && '/' !in m && '/' !in dd;
  }

  /** Joining two components below a directory, neither ending in a separator. */
  lemma JoinPathTwice(root: string, dir: string, name: string)
    requires root != [] && root[|root| - 1] != '/'
    requires dir != [] && dir[|dir| - 1] != '/'
    ensures JoinPath(JoinPath(root, dir), name) == root + "/" + (dir + "/" + name)
  {
    var joined := root + "/" + dir;
    assert joined[|joined| - 1] == dir[|dir| - 1];
  }

  /** Below a root without a trailing separator, the destination spelled out. */
  lemma DestinationSpelledOut(root: string, received: Date, court: string, procedure: string)
    requires root != [] && root[|root| - 1] != '/'
    requires ValidDate(received)
    ensures DestinationFolder(root, received, court, procedure)
      == root + "/" + (DateFolderName(received) + "/" + FolderName(court, procedure))
  {
    var date := DateFolderName(received);
    DateFolderNameHasNoSeparator(received);
    assert date[|date| - 1] in date;
    JoinPathTwice(root, date, FolderName(court, procedure));
  }

  /** Below a root without a trailing separator, the destination is exactly two
      more path components: the date folder and the notification's folder. */
  lemma DestinationComponents(root: string, received: Date, court: string, procedure: string)
    requires root != [] && root[|root| - 1] != '/'
    requires ValidDate(received)
    ensures var dest := DestinationFolder(root, received, court, procedure);
      && root + "/" <= dest
      && Split(dest[|root| + 1..], '/') == [DateFolderName(received), FolderName(court, procedure)]
  {
    var date, name := DateFolderName(received), FolderName(court, procedure);
    DateFolderNameHasNoSeparator(received);
    DestinationSpelledOut(root, received, court, procedure);
    var dest := root + "/" + (date + "/" + name);
    assert dest[|root| + 1..] == date + "/" + name;
    assert Join([date, name], '/') == date + "/" + name;
    SplitJoin([date, name], '/');
  }

  /** A notification found in the inbox, with its download state. */
  class NotificationInfo {
    const notificationId: string
    const court: string
    const procedureNumber: string
    const notificationType: string
    const receivedDate: Date
    const isUrgent: bool
    var downloaded: bool
    var downloadPath: Option<string>
    var files: seq<string>

    /** A new notification is not downloaded, has no path and no files. */
    constructor (notificationId: string, court: string, procedureNumber: string,
                 notificationType: string, receivedDate: Date, isUrgent: bool)
      ensures this.notificationId == notificationId && this.court == court
      ensures this.procedureNumber == procedureNumber && this.notificationType == notificationType
      ensures this.receivedDate == receivedDate && this.isUrgent == isUrgent
      ensures !downloaded && downloadPath == None && files == []
    {
      this.notificationId := notificationId;
      this.court := court;
      this.procedureNumber := procedureNumber;
      this.notificationType := notificationType;
      this.receivedDate := receivedDate;
      this.isUrgent := isUrgent;
      downloaded := false;
      downloadPath := None;
      files := [];
    }
  }

  /** The automator for one account: its download root and whether a
      browser is open. */
  class LexNetAutomator {
    const certificateThumbprint: Option<string>
    const downloadFolder: string
    const headless: bool
    var driverOpen: bool

    constructor (certificateThumbprint: Option<string>, downloadFolder: string, headless: bool)
      ensures this.certificateThumbprint == certificateThumbprint
      ensures this.downloadFolder == downloadFolder && this.headless == headless
      ensures !driverOpen
    {
      this.certificateThumbprint := certificateThumbprint;
      this.downloadFolder := downloadFolder;
      this.headless := headless;
      driverOpen := false;
    }

    /** Where `n` is saved by this automator. */
    function Destination(n: NotificationInfo): string {
      DestinationFolder(downloadFolder, n.receivedDate, n.court, n.procedureNumber)
    }

    /** `n` is marked downloaded into its destination folder. */
    predicate SavedTo(n: NotificationInfo)
      reads n
    {
      n.downloaded && n.downloadPath == Some(Destination(n))
    }

    /**
     * `login`: a browser is launched only when none is open; without one
     * the login fails. With a browser, it succeeds when the sign-in steps
     * finish (an uncertain final page still counts as success).
     */
    method Login(browserStarts: bool, signedIn: bool) returns (ok: bool)
      modifies this
      ensures driverOpen == (old(driverOpen) || browserStarts)
      ensures ok <==> driverOpen && signedIn
    {
      if !driverOpen {
        if !browserStarts {
          return false;
        }
        driverOpen := true;
      }
      return signedIn;
    }

    /** `download_notification`: on success the notification is marked
        downloaded with its destination folder; on failure it is untouched. */
    method DownloadNotification(n: NotificationInfo, saved: bool) returns (ok: bool)
      modifies if saved then {n} else {}
      ensures ok == saved
      ensures ok ==> SavedTo(n)
      ensures n.files == old(n.files)
    {
      if !saved {
        return false;
      }
      n.downloaded := true;
      n.downloadPath := Some(Destination(n));
      return true;
    }

    /** The loop shared by `download_notifications` and `sync_notifications`:
        downloads each notification in order and counts the successes. Only
        the notifications saved are changed. */
    method DownloadEach(ns: seq<NotificationInfo>, saved: seq<bool>) returns (count: nat)
      requires |saved| == |ns|
      modifies set i | 0 <= i < |ns| && saved[i] :: ns[i]
      ensures count == CountTrue(saved) && count <= |ns|
      ensures forall i :: 0 <= i < |ns| && saved[i] ==> SavedTo(ns[i])
      ensures forall i :: 0 <= i < |ns| ==> ns[i].files == old(ns[i].files)
    {
      hide Destination;
      count := 0;
      for i := 0 to |ns|
        invariant count == CountTrue(saved[..i])
        invariant forall k :: 0 <= k < i && saved[k] ==> SavedTo(ns[k])
        invariant forall k :: 0 <= k < |ns| ==> ns[k].files == old(ns[k].files)
      {
        var ok := DownloadNotification(ns[i], saved[i]);
        CountTrueSnoc(saved, i);
        if ok {
          count := count + 1;
        }
      }
      assert saved[..|ns|] == saved;
    }

    /** `close`: the browser is closed; closing again changes nothing more. */
    method Close()
      modifies this
      ensures !driverOpen
    {
      if driverOpen {
        driverOpen := false;
      }
    }

    /**
     * `check_notifications`: the pending list when the login succeeds and an
     * empty list when it fails; the browser is closed either way.
     */
    method CheckNotifications(browserStarts: bool, signedIn: bool, pending: seq<NotificationInfo>)
      returns (r: seq<NotificationInfo>)
      modifies this
      ensures !driverOpen
      ensures r == if (old(driverOpen) || browserStarts) && signedIn then pending else []
    {
      r := [];
      var ok := Login(browserStarts, signedIn);
      if ok {
        r := pending;
      }
      Close();
    }

    /**
     * `download_notifications`: an empty list returns 0 without logging in
     * or closing; a failed login returns 0; otherwise the number of
     * notifications saved. Every non-empty call ends with the browser closed.
     */
    method DownloadNotifications(ns: seq<NotificationInfo>, browserStarts: bool, signedIn: bool, saved: seq<bool>)
      returns (count: nat)
      requires |saved| == |ns|
      modifies this, set i | 0 <= i < |ns| && saved[i] :: ns[i]
      ensures ns == [] ==> count == 0 && driverOpen == old(driverOpen)
      ensures ns != [] ==> !driverOpen
      ensures count == if ns != [] && (old(driverOpen) || browserStarts) && signedIn then CountTrue(saved) else 0
      ensures count <= |ns|
      ensures (old(driverOpen) || browserStarts) && signedIn ==>
        forall i :: 0 <= i < |ns| && saved[i] ==> SavedTo(ns[i])
      ensures !((old(driverOpen) || browserStarts) && signedIn) ==>
        forall i :: 0 <= i < |ns| ==> unchanged(ns[i])
      ensures forall i :: 0 <= i < |ns| ==> ns[i].files == old(ns[i].files)
    {
      if ns == [] {
        return 0;
      }
      var ok := Login(browserStarts, signedIn);
      if !ok {
        Close();
        return 0;
      }
      count := DownloadEach(ns, saved);
      Close();
    }

    /**
     * `sync_notifications`: after a successful login, downloads every
     * pending notification and returns how many were saved; a failed login
     * returns 0. The browser is closed either way.
     */
    method SyncNotifications(browserStarts: bool, signedIn: bool, pending: seq<NotificationInfo>, saved: seq<bool>)
      returns (count: nat)
      requires |saved| == |pending|
      modifies this, set i | 0 <= i < |pending| && saved[i] :: pending[i]
      ensures !driverOpen
      ensures count == if (old(driverOpen) || browserStarts) && signedIn then CountTrue(saved) else 0
      ensures count <= |pending|
      ensures (old(driverOpen) || browserStarts) && signedIn ==>
        forall i :: 0 <= i < |pending| && saved[i] ==> SavedTo(pending[i])
      ensures !((old(driverOpen) || browserStarts) && signedIn) ==>
        forall i :: 0 <= i < |pending| ==> unchanged(pending[i])
      ensures forall i :: 0 <= i < |pending| ==> pending[i].files == old(pending[i].files)
    {
      var ok := Login(browserStarts, signedIn);
      if !ok {
        Close();
        return 0;
      }
      count := DownloadEach(pending, saved);
      Close();
    }
  }
}
