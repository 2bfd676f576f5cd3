/**
 * The case lifecycle: a Case (identity, configuration file, database and the
 * cached "has data" flag) and the process-wide manager that holds the current
 * case, the log directory and the ordered trace of everything listeners and the
 * user are shown.
 */
module CaseLifecycle {
  import opened Wrappers
  import opened CaseNames
  import opened Collaborators
  import opened CaseErrors
  import opened CaseTrace
  import opened CaseFolders
  import opened ImagePaths

  /** The transition view of a case, if there is one. */
  function ViewOf(c: Option<Case>): Option<CaseView<Case>>
    reads if c.Some? then {c.value} else {}
  {
    if c.Some? then Some(c.value.View()) else None
  }

  function CasesOf(c: Option<Case>): set<Case> {
    if c.Some? then {c.value} else {}
  }

  function DatabasesOf(c: Option<Case>): set<CaseDatabase> {
    if c.Some? then {c.value.db} else {}
  }

  function ConfigsOf(c: Option<Case>): set<ConfigStore> {
    if c.Some? then {c.value.config} else {}
  }

  function ServicesOf(c: Option<Case>): set<Services> {
    if c.Some? then {c.value.services} else {}
  }

  /** One prompt per image that cannot be found. */
  function MissingNotices(missing: seq<MissingImage>): seq<Effect<Case>> {
    seq(|missing|, i requires 0 <= i < |missing| => Notified(ImageMissing(missing[i].id, missing[i].path)))
  }

  /** The set of time zones of the images among `sources`. */
  function ImageZones(sources: seq<DataSource>): set<string> {
    set ds | ds in sources && ds.isImage :: ds.timeZone
  }

  /** Why open's guarded block throws, in the order its steps run; None when it gets through. */
  function OpenCause(stored: Option<ConfigFile>, image: Option<DbImage>): Option<OpenFailure> {
    if stored.None? then Some(ConfigUnreadable)
    else if stored.value.name == "" then Some(BlankCase)
    else if image.None? then Some(DatabaseUnopenable)
    else None
  }

  /** The exception open rethrows: a path without the case extension gets the check-the-file message. */
  function OpenError(configFilePath: string, cause: OpenFailure): CaseError {
    if EndsWith(configFilePath, CaseDotExtension) then OpenFailed(cause) else OpenCheckFile(cause)
  }

  /**
   * Why open fails once its guarded block got through: the opened case's temp
   * folder cannot be listed while it becomes current.
   */
  function OpenFailureOf(stored: Option<ConfigFile>, image: Option<DbImage>, d: Disk, unreadable: set<string>)
    : Option<OpenFailure>
  {
    var cause := OpenCause(stored, image);
    if cause.Some? then cause
    else if !TempListable(d, unreadable, Child(stored.value.caseDir, TempFolder)) then Some(TempUnlisted)
    else None
  }

  /**
   * closeCase's close sequence, given whether each part was open before:
   * services, then configuration file, then database, stopping at the first
   * that fails.
   */
  ghost predicate ClosedInOrder(c: Case, fault: Option<CloseFault>, servicesWas: bool, configWas: bool, dbWas: bool)
    reads c.services, c.config, c.db
  {
    c.services.isOpen == (fault == Some(ServicesFault) && servicesWas)
    && c.config.isOpen == ((fault == Some(ServicesFault) || fault == Some(ConfigFault)) && configWas)
    && c.db.isOpen == (fault.Some? && dbWas)
  }

  /**
   * The parts closeCase releases after the case stopped being current, in
   * order, given the close that fails: services, then configuration file,
   * then database.
   */
  function Releases(fault: Option<CloseFault>): seq<Effect<Case>> {
    match fault
    case Some(ServicesFault) => []
    case Some(ConfigFault) => [Released(ServicesPart)]
    case Some(DatabaseFault) => [Released(ServicesPart), Released(ConfigPart)]
    case None => [Released(ServicesPart), Released(ConfigPart), Released(DatabasePart)]
  }

  /** A part of a case that was open is recorded as released exactly when the close sequence left it closed. */
  lemma ReleasedIffClosed(c: Case, fault: Option<CloseFault>)
    requires ClosedInOrder(c, fault, true, true, true)
    ensures Released(ServicesPart) in Releases(fault) <==> !c.services.isOpen
    ensures Released(ConfigPart) in Releases(fault) <==> !c.config.isOpen
    ensures Released(DatabasePart) in Releases(fault) <==> !c.db.isOpen
  {
  }

  /** The dialog open shows when the database was upgraded and a backup kept. */
  function RestoredNotice(backupPath: Option<string>): seq<Effect<Case>> {
    if backupPath.Some? then [Notified(DatabaseRestored(backupPath.value))] else []
  }

  /** Open's dialogs fire no event. */
  lemma NoticesQuiet(backupPath: Option<string>, missing: seq<MissingImage>, s: Option<Case>)
    ensures Quiet(RestoredNotice(backupPath) + MissingNotices(missing), s)
  {
    var t := RestoredNotice(backupPath) + MissingNotices(missing);
    forall i | 0 <= i < |t|
      ensures t[i].Notified?
    {
      if i >= |RestoredNotice(backupPath)| {
        assert t[i] == MissingNotices(missing)[i - |RestoredNotice(backupPath)|];
      }
    }
  }

  /** Case.java's Case object. */
  class Case {
    var name: string
    var number: string
    var examiner: string
    const configFilePath: string
    const config: ConfigStore
    const db: CaseDatabase
    const services: Services
    /** Whether the database was last seen to hold a data source. */
    var hasData: bool

    /** The in-memory identity mirrors the configuration file, and the cache never claims data the database lacks. */
    ghost predicate Valid()
      reads this, config, db
    {
      name == config.name && number == config.number && examiner == config.examiner
      && (hasData ==> |db.roots| > 0)
    }

    constructor (name: string, number: string, examiner: string, configFilePath: string,
                 config: ConfigStore, db: CaseDatabase)
      ensures this.name == name && this.number == number && this.examiner == examiner
      ensures this.configFilePath == configFilePath && this.config == config && this.db == db
      ensures fresh(services) && services.isOpen && !hasData
    {
      this.name := name;
      this.number := number;
      this.examiner := examiner;
      this.configFilePath := configFilePath;
      this.config := config;
      this.db := db;
      this.services := new Services();
      this.hasData := false;
    }

    function CaseDirectory(): string {
      config.caseDir
    }

    function LogDirectory(): string {
      config.LogDir()
    }

    function TempDirectory(): string {
      config.TempDir()
    }

    function View(): CaseView<Case>
      reads this
    {
      CaseView(this, name, LogDirectory(), configFilePath)
    }

    /** Case.init: registers the case for the database's error reports. */
    method Init()
      modifies db`errorObservers
      ensures db.errorObservers == old(db.errorObservers) + [this]
    {
      db.AddErrorObserver(this);
    }

    /** Case.getDataSources: lists the root objects and refreshes the cache from the answer. */
    method GetDataSources() returns (r: Result<seq<DataSource>, StoreFault>)
      requires Valid()
      modifies this`hasData, db`rootQueries
      ensures r == if db.available then Ok(db.roots) else Err(StoreFault)
      ensures hasData == if db.available then |db.roots| > 0 else old(hasData)
      ensures db.rootQueries == old(db.rootQueries) + 1
      ensures Valid()
    {
      r := db.RootObjects();
      if r.Ok? {
        hasData := |r.value| > 0;
      }
    }

    /**
     * Case.hasData: once the cache holds true it is answered without a query;
     * otherwise the database is asked again, and a failed query leaves it false.
     */
    method HasData() returns (b: bool)
      requires Valid()
      modifies this`hasData, db`rootQueries
      ensures b == hasData
      ensures old(hasData) ==> b && db.rootQueries == old(db.rootQueries)
      ensures !old(hasData) ==> (b <==> db.available && |db.roots| > 0) && db.rootQueries == old(db.rootQueries) + 1
      ensures b ==> |db.roots| > 0
      ensures Valid()
    {
      if !hasData {
        var sources := GetDataSources();
      }
      b := hasData;
    }

    /** Case.getTimeZone: the zones of the case's images; none when the query fails. */
    method GetTimeZone() returns (zones: set<string>)
      requires Valid()
      modifies this`hasData, db`rootQueries
      ensures zones == if db.available then ImageZones(db.roots) else {}
      ensures hasData == if db.available then |db.roots| > 0 else old(hasData)
      ensures db.rootQueries == old(db.rootQueries) + 1
      ensures Valid()
    {
      zones := {};
      var sources := GetDataSources();
      if sources.Ok? {
        var list := sources.value;
        var i := 0;
        while i < |list|
          invariant 0 <= i <= |list|
          invariant zones == ImageZones(list[..i])
        {
          var c := list[i];
          if c.isImage {
            zones := zones + {c.timeZone};
          }
          assert list[..i + 1] == list[..i] + [c];
          i := i + 1;
        }
        assert list[..|list|] == list;
      }
    }

    /**
     * Case.updateCaseName: the configuration file is written first; only then
     * does the field change, the recent-cases entry move and NAME fire with the
     * caller's pair.
     */
    method UpdateCaseName(m: CaseManager, oldCaseName: string, oldPath: string, newCaseName: string,
                          newPath: string, persisted: bool) returns (r: Outcome<CaseError>)
      requires Valid() && m.Valid()
      modifies this`name, config`name, m`trace
      ensures Valid() && m.Valid()
      ensures persisted ==> (r == Pass && name == newCaseName
                && m.trace == old(m.trace) + [RecentCall(UpdateRecent(oldCaseName, oldPath, newCaseName, newPath))]
                                + Fire(Event(Name, Text(oldCaseName), Text(newCaseName)), m.faultyListeners, m.current))
      ensures !persisted ==> r == Fail(UpdateNameFailed) && name == old(name) && m.trace == old(m.trace)
    {
      if !persisted {
        return Fail(UpdateNameFailed);
      }
      config.SetCaseName(newCaseName);
      name := newCaseName;
      var recent: seq<Effect<Case>> := [RecentCall(UpdateRecent(oldCaseName, oldPath, newCaseName, newPath))];
      ReplayQuiet(m.trace, recent, None, m.current);
      m.trace := m.trace + recent;
      var fired := Fire(Event(Name, Text(oldCaseName), Text(newCaseName)), m.faultyListeners, m.current);
      FireQuiet(Event(Name, Text(oldCaseName), Text(newCaseName)), m.faultyListeners, m.current);
      ReplayQuiet(m.trace, fired, None, m.current);
      m.trace := m.trace + fired;
      r := Pass;
    }

    /** Case.updateExaminer: written to the configuration file first, then the field, then EXAMINER fires. */
    method UpdateExaminer(m: CaseManager, oldExaminer: string, newExaminer: string, persisted: bool)
      returns (r: Outcome<CaseError>)
      requires Valid() && m.Valid()
      modifies this`examiner, config`examiner, m`trace
      ensures Valid() && m.Valid()
      ensures persisted ==> (r == Pass && examiner == newExaminer
                && m.trace == old(m.trace) + Fire(Event(Examiner, Text(oldExaminer), Text(newExaminer)), m.faultyListeners, m.current))
      ensures !persisted ==> r == Fail(UpdateExaminerFailed) && examiner == old(examiner) && m.trace == old(m.trace)
    {
      if !persisted {
        return Fail(UpdateExaminerFailed);
      }
      config.SetCaseExaminer(newExaminer);
      examiner := newExaminer;
      var effects := Fire(Event(Examiner, Text(oldExaminer), Text(newExaminer)), m.faultyListeners, m.current);
      FireQuiet(Event(Examiner, Text(oldExaminer), Text(newExaminer)), m.faultyListeners, m.current);
      ReplayQuiet(m.trace, effects, None, m.current);
      m.trace := m.trace + effects;
      r := Pass;
    }

    /** Case.updateCaseNumber: written to the configuration file first, then the field, then NUMBER fires. */
    method UpdateCaseNumber(m: CaseManager, oldCaseNumber: string, newCaseNumber: string, persisted: bool)
      returns (r: Outcome<CaseError>)
      requires Valid() && m.Valid()
      modifies this`number, config`number, m`trace
      ensures Valid() && m.Valid()
      ensures persisted ==> (r == Pass && number == newCaseNumber
                && m.trace == old(m.trace) + Fire(Event(Number, Text(oldCaseNumber), Text(newCaseNumber)), m.faultyListeners, m.current))
      ensures !persisted ==> r == Fail(UpdateNumberFailed) && number == old(number) && m.trace == old(m.trace)
    {
      if !persisted {
        return Fail(UpdateNumberFailed);
      }
      config.SetCaseNumber(newCaseNumber);
      number := newCaseNumber;
      var effects := Fire(Event(Number, Text(oldCaseNumber), Text(newCaseNumber)), m.faultyListeners, m.current);
      FireQuiet(Event(Number, Text(oldCaseNumber), Text(newCaseNumber)), m.faultyListeners, m.current);
      ReplayQuiet(m.trace, effects, None, m.current);
      m.trace := m.trace + effects;
      r := Pass;
    }

    /**
     * Case.closeCase: no case is current any more, whatever happens next; then
     * services, configuration file and database are closed in that order, and
     * the first close that fails ends the sequence with one error.
     */
    method CloseCase(m: CaseManager, fault: Option<CloseFault>) returns (r: Outcome<CaseError>)
      requires m.Valid()
      modifies m`current, m`trace, m`logDir, services`isOpen, config`isOpen, db`isOpen
      ensures m.Valid() && m.current == None
      ensures m.trace == old(m.trace) + Transition(old(ViewOf(m.current)), None, m.defaultLogDir, m.faultyListeners, true)
                         + Releases(fault)
      ensures r == if fault.Some? then Fail(CloseFailed(fault.value)) else Pass
      ensures ClosedInOrder(this, fault, old(services.isOpen), old(config.isOpen), old(db.isOpen))
    {
      var changed := m.ChangeCase(None);
      r := ReleaseParts(m, fault);
    }

    /**
     * The close sequence of Case.closeCase: services, configuration file and
     * database in that order, each recorded once closed; the first close that
     * fails ends the sequence with one error. Nothing fires.
     */
    method ReleaseParts(m: CaseManager, fault: Option<CloseFault>) returns (r: Outcome<CaseError>)
      requires m.Valid()
      modifies m`trace, services`isOpen, config`isOpen, db`isOpen
      ensures m.Valid() && m.trace == old(m.trace) + Releases(fault)
      ensures r == if fault.Some? then Fail(CloseFailed(fault.value)) else Pass
      ensures ClosedInOrder(this, fault, old(services.isOpen), old(config.isOpen), old(db.isOpen))
    {
      if fault == Some(ServicesFault) {
        return Fail(CloseFailed(ServicesFault));
      }
      services.Close();
      m.Record(Released(ServicesPart));
      if fault == Some(ConfigFault) {
        return Fail(CloseFailed(ConfigFault));
      }
      config.Close();
      m.Record(Released(ConfigPart));
      if fault.Some? {
        return Fail(CloseFailed(fault.value));
      }
      db.Close();
      m.Record(Released(DatabasePart));
      r := Pass;
    }

    /**
     * Case.deleteCase: once the configuration file is closed, the directory is
     * deleted, the recent-cases entry removed and no case is current, even when
     * the directory did not go; that is then reported. Every failure carries
     * the directory.
     */
    method DeleteCase(m: CaseManager, caseDir: string, configClosed: bool) returns (r: Outcome<CaseError>)
      requires m.Valid()
      modifies config`isOpen, m.fs, m`current, m`trace, m`logDir
      ensures m.Valid()
      ensures !configClosed ==> (r == Fail(DeleteFailed(caseDir, ConfigNotClosed)) && config.isOpen == old(config.isOpen)
                && m.fs.disk == old(m.fs.disk) && m.current == old(m.current) && m.trace == old(m.trace)
                && m.logDir == old(m.logDir))
      ensures configClosed ==> (!config.isOpen && m.current == None
                && m.fs.disk == RemoveTree(old(m.fs.disk), m.fs.undeletable, caseDir)
                && m.trace == old(m.trace) + [Released(ConfigPart)] + [RecentCall(RemoveRecent(name, configFilePath))]
                                + Transition(old(ViewOf(m.current)), None, m.defaultLogDir, m.faultyListeners, true)
                && r == if Deletable(old(m.fs.disk), m.fs.undeletable, caseDir) then Pass
                        else Fail(DeleteFailed(caseDir, DirectoryNotRemoved)))
    {
      if !configClosed {
        return Fail(DeleteFailed(caseDir, ConfigNotClosed));
      }
      config.Close();
      m.Record(Released(ConfigPart));
      var result := RemoveClosed(m, caseDir);
      if !result {
        return Fail(DeleteFailed(caseDir, DirectoryNotRemoved));
      }
      r := Pass;
    }

    /**
     * Case.deleteCase once the configuration file is closed: the directory is
     * deleted, the recent-cases entry removed and no case is current, whether
     * or not the directory went.
     */
    method RemoveClosed(m: CaseManager, caseDir: string) returns (removed: bool)
      requires m.Valid()
      modifies m.fs, m`current, m`trace, m`logDir
      ensures m.Valid() && m.current == None
      ensures removed == Deletable(old(m.fs.disk), m.fs.undeletable, caseDir)
      ensures m.fs.disk == RemoveTree(old(m.fs.disk), m.fs.undeletable, caseDir)
      ensures m.trace == old(m.trace) + [RecentCall(RemoveRecent(name, configFilePath))]
                         + Transition(old(ViewOf(m.current)), None, m.defaultLogDir, m.faultyListeners, true)
    {
      ghost var leaving := ViewOf(m.current);
      removed := m.fs.DeleteDir(caseDir);
      m.Record(RecentCall(RemoveRecent(name, configFilePath)));
      var changed := m.ChangeCase(None);
      assert leaving == old(ViewOf(m.current));
    }

    /** Case.notifyNewDataSource: DATA_SOURCE_ADDED with no old value and the source as the new one. */
    method NotifyNewDataSource(m: CaseManager, newDataSource: DataSource)
      requires m.Valid()
      modifies m`trace
      ensures m.Valid()
      ensures m.trace == old(m.trace) + [Fired(Event(DataSourceAdded, Null, Source(newDataSource)), m.current)]
                         + (if DataSourceAdded in m.faultyListeners then [Notified(ListenerFailed(DataSourceAdded))] else [])
    {
      var effects := Fire(Event(DataSourceAdded, Null, Source(newDataSource)), m.faultyListeners, m.current);
      FireQuiet(Event(DataSourceAdded, Null, Source(newDataSource)), m.faultyListeners, m.current);
      ReplayQuiet(m.trace, effects, None, m.current);
      m.trace := m.trace + effects;
    }

    /** Case.addImage: looks the image up by id and announces it; a failed lookup is the only error. */
    method AddImage(m: CaseManager, imgPath: string, imgId: int, timeZone: string)
      returns (r: Result<DataSource, CaseError>)
      requires m.Valid()
      modifies m`trace
      ensures m.Valid()
      ensures r.Ok? <==> db.available && FindImage(db.roots, imgId).Some?
      ensures r.Ok? ==> (r.value == FindImage(db.roots, imgId).value
                && m.trace == old(m.trace) + Fire(Event(DataSourceAdded, Null, Source(r.value)), m.faultyListeners, m.current))
      ensures r.Err? ==> r.error == AddImageFailed && m.trace == old(m.trace)
    {
      var found := db.ImageById(imgId);
      if found.Err? {
        return Err(AddImageFailed);
      }
      var newImage := found.value;
      var effects := Fire(Event(DataSourceAdded, Null, Source(newImage)), m.faultyListeners, m.current);
      FireQuiet(Event(DataSourceAdded, Null, Source(newImage)), m.faultyListeners, m.current);
      ReplayQuiet(m.trace, effects, None, m.current);
      m.trace := m.trace + effects;
      r := Ok(newImage);
    }

    /** Case.receiveError: a database error becomes a user notification. */
    method ReceiveError(m: CaseManager, context: string, errorMessage: string)
      requires m.Valid()
      modifies m`trace
      ensures m.Valid()
      ensures m.trace == old(m.trace) + [Notified(StoreError(context, errorMessage))]
    {
      var effects: seq<Effect<Case>> := [Notified(StoreError(context, errorMessage))];
      ReplayQuiet(m.trace, effects, None, m.current);
      m.trace := m.trace + effects;
    }

    /**
     * Case.addReport: the report row is stored, then REPORT_ADDED fires with no
     * old value; a listener's exception is only logged. A store failure is
     * thrown before anything fires.
     */
    method AddReport(m: CaseManager, localPath: string, srcModuleName: string, reportName: string)
      returns (r: Outcome<StoreFault>)
      requires m.Valid()
      modifies db`reports, m`trace
      ensures m.Valid()
      ensures db.available ==> (r == Pass && db.reports == old(db.reports) + [Report(localPath, srcModuleName, reportName)]
                && m.trace == old(m.trace) + [Fired(Event(ReportAdded, Null, ReportValue(Report(localPath, srcModuleName, reportName))), m.current)])
      ensures !db.available ==> r == Fail(StoreFault) && db.reports == old(db.reports) && m.trace == old(m.trace)
    {
      var added := db.AddReport(localPath, srcModuleName, reportName);
      if added.Err? {
        return Fail(added.error);
      }
      var effects := FireQuietly(Event(ReportAdded, Null, ReportValue(added.value)), m.current);
      FireQuiet(Event(ReportAdded, Null, ReportValue(added.value)), m.faultyListeners, m.current);
      ReplayQuiet(m.trace, effects, None, m.current);
      m.trace := m.trace + effects;
      r := Pass;
    }
  }

  /** The static side of Case.java: the current case and what the module has shown so far. */
  class CaseManager {
    var current: Option<Case>
    var trace: seq<Effect<Case>>
    var logDir: string
    /** PlatformUtil.getLogDirectory. */
    const defaultLogDir: string
    /** The event kinds some listener of which throws. */
    const faultyListeners: set<EventKind>
    const fs: FileSystem

    /**
     * The CURRENT_CASE events fired so far alternate between a case arriving
     * and that case leaving, and end at the current case; the log goes to the
     * current case's log folder, or to the application's when none is open.
     */
    ghost predicate Valid()
      reads this
    {
      Replay(trace, None) == Some(current)
      && logDir == if current.Some? then current.value.LogDirectory() else defaultLogDir
    }

    constructor (defaultLogDir: string, faultyListeners: set<EventKind>, fs: FileSystem)
      ensures Valid() && current == None && trace == [] && logDir == defaultLogDir
      ensures this.defaultLogDir == defaultLogDir && this.faultyListeners == faultyListeners && this.fs == fs
    {
      current := None;
      trace := [];
      logDir := defaultLogDir;
      this.defaultLogDir := defaultLogDir;
      this.faultyListeners := faultyListeners;
      this.fs := fs;
    }

    predicate IsCaseOpen()
      reads this
    {
      current.Some?
    }

    /** Records an effect that fires no event. */
    method Record(x: Effect<Case>)
      requires Valid() && !x.Fired?
      modifies this`trace
      ensures Valid() && trace == old(trace) + [x]
    {
      ReplayQuiet(trace, [x], None, current);
      trace := trace + [x];
    }

    /** Case.getCurrentCase: the current case, or the error thrown when none is open. */
    function GetCurrentCase(): (r: Result<Case, CaseError>)
      reads this
      ensures r.Ok? <==> IsCaseOpen()
      ensures r.Ok? ==> current == Some(r.value)
      ensures r.Err? ==> r.error == NoCaseOpen
    {
      if current.Some? then Ok(current.value) else Err(NoCaseOpen)
    }

    /**
     * The leaving half of Case.changeCase: the singleton is cleared first, so
     * listeners of CURRENT_CASE and NAME for the old case find no case open.
     */
    method Detaching()
      requires current.Some?
      modifies this`current, this`trace
      ensures current == None
      ensures trace == old(trace) + Detach(old(current.value.View()), faultyListeners)
    {
      var c := current.value;
      current := None;
      trace := trace + [NotificationsCleared];
      trace := trace + Fire(Event(CurrentCase, CaseRef(c), Null), faultyListeners, current);
      trace := trace + Fire(Event(Name, Text(c.name), Text("")), faultyListeners, current);
    }

    /**
     * The arriving half of Case.changeCase: the singleton is set and the log
     * redirected, CURRENT_CASE fires, the temp folder is cleared, the module
     * output folder restored, the data cache refreshed, then NAME fires and the
     * case joins the recent cases. A temp folder that cannot be listed ends
     * the sequence right after CURRENT_CASE, with `listed` false.
     */
    method Attaching(c: Case) returns (listed: bool)
      requires c.Valid()
      modifies this`current, this`trace, this`logDir, fs, c`hasData, c.db`rootQueries
      ensures current == Some(c) && logDir == c.LogDirectory() && c.Valid()
      ensures listed == TempListable(old(fs.disk), fs.unreadable, c.TempDirectory())
      ensures trace == old(trace) + Attach(c.View(), faultyListeners, listed)
      ensures listed ==> (fs.disk == ArrivalDisk(old(fs.disk), fs.undeletable, fs.broken, c.CaseDirectory())
                && c.hasData == (old(c.hasData) || (c.db.available && |c.db.roots| > 0))
                && c.db.rootQueries == old(c.db.rootQueries) + (if old(c.hasData) then 0 else 1))
      ensures !listed ==> (fs.disk == old(fs.disk) && c.hasData == old(c.hasData)
                && c.db.rootQueries == old(c.db.rootQueries))
    {
      current := Some(c);
      logDir := c.LogDirectory();
      trace := trace + [LogDirSet(logDir)];
      trace := trace + Fire(Event(CurrentCase, Null, CaseRef(c)), faultyListeners, current);
      listed := ClearTempFolder(fs, c.TempDirectory());
      if !listed {
        return;
      }
      CheckSubFolders(fs, c.CaseDirectory());
      var withData := c.HasData();
      trace := trace + Fire(Event(Name, Text(""), Text(c.name)), faultyListeners, current);
      trace := trace + [RecentCall(AddRecent(c.name, c.configFilePath))];
    }

    /** Case.changeCase(null): the current case, if any, leaves and the log returns to the application's folder. */
    method Leave()
      requires Valid()
      modifies this`current, this`trace, this`logDir
      ensures Valid() && current == None
      ensures trace == old(trace) + Transition(old(ViewOf(current)), None, defaultLogDir, faultyListeners, true)
    {
      ghost var leaving := ViewOf(current);
      ghost var t0 := trace;
      if current.Some? {
        Detaching();
      }
      logDir := defaultLogDir;
      trace := trace + [LogDirSet(defaultLogDir)];
      assert trace == t0 + LeavingPart(leaving, faultyListeners) + ArrivingPart(None, defaultLogDir, faultyListeners, true);
      ChangeReplays(t0, leaving, None, defaultLogDir, faultyListeners, true);
    }

    /** Case.changeCase(c): the current case, if any, leaves and `c` arrives. */
    method Enter(c: Case) returns (listed: bool)
      requires Valid() && c.Valid()
      modifies this`current, this`trace, this`logDir, fs, c`hasData, c.db`rootQueries
      ensures Valid() && current == Some(c) && c.Valid()
      ensures listed == TempListable(old(fs.disk), fs.unreadable, c.TempDirectory())
      ensures trace == old(trace) + Transition(old(ViewOf(current)), Some(c.View()), defaultLogDir, faultyListeners, listed)
      ensures listed ==> (fs.disk == ArrivalDisk(old(fs.disk), fs.undeletable, fs.broken, c.CaseDirectory())
                && c.hasData == (old(c.hasData) || (c.db.available && |c.db.roots| > 0))
                && c.db.rootQueries == old(c.db.rootQueries) + (if old(c.hasData) then 0 else 1))
      ensures !listed ==> (fs.disk == old(fs.disk) && c.hasData == old(c.hasData)
                && c.db.rootQueries == old(c.db.rootQueries))
    {
      ghost var leaving := ViewOf(current);
      ghost var t0 := trace;
      if current.Some? {
        Detaching();
      }
      assert trace == t0 + LeavingPart(leaving, faultyListeners);
      listed := Attaching(c);
      assert trace == t0 + LeavingPart(leaving, faultyListeners)
                     + ArrivingPart(Some(c.View()), defaultLogDir, faultyListeners, listed);
      ChangeReplays(t0, leaving, Some(c.View()), defaultLogDir, faultyListeners, listed);
    }

    /**
     * Case.changeCase: the only place the current case changes. The leaving
     * case goes first, then the arriving case comes in, or the log returns to
     * the application's folder. A throwing listener interrupts nothing; an
     * arriving case whose temp folder cannot be listed stays current, but
     * its NAME event and recent-cases entry never come and the failure
     * propagates.
     */
    method ChangeCase(newCase: Option<Case>) returns (r: Outcome<CaseError>)
      requires Valid()
      requires newCase.Some? ==> newCase.value.Valid()
      modifies this`current, this`trace, this`logDir
      modifies if newCase.Some? then {fs} else {}
      modifies CasesOf(newCase)`hasData, DatabasesOf(newCase)`rootQueries
      ensures Valid() && current == newCase && (IsCaseOpen() <==> newCase.Some?)
      ensures r == if newCase.Some? && !TempListable(old(fs.disk), fs.unreadable, newCase.value.TempDirectory())
                   then Fail(TempFolderUnlisted(newCase.value.TempDirectory())) else Pass
      ensures trace == old(trace) + Transition(old(ViewOf(current)), ViewOf(newCase), defaultLogDir, faultyListeners, r.Pass?)
      ensures newCase.None? || r.Fail? ==> fs.disk == old(fs.disk)
      ensures newCase.Some? ==>
                var c := newCase.value;
                c.Valid()
                && (r.Pass? ==>
                      (fs.disk == ArrivalDisk(old(fs.disk), fs.undeletable, fs.broken, c.CaseDirectory())
                       && c.hasData == (old(c.hasData) || (c.db.available && |c.db.roots| > 0))
                       && c.db.rootQueries == old(c.db.rootQueries) + (if old(c.hasData) then 0 else 1)))
                && (r.Fail? ==> c.hasData == old(c.hasData) && c.db.rootQueries == old(c.db.rootQueries))
    {
      if newCase.Some? {
        var listed := Enter(newCase.value);
        r := if listed then Pass else Fail(TempFolderUnlisted(newCase.value.TempDirectory()));
      } else {
        Leave();
        r := Pass;
      }
    }

    /**
     * Case.create: the directory is laid out only when nothing exists at
     * `caseDir`; then the configuration file is written, the database created
     * beside it, and the new case becomes current. Nothing is fired before
     * the last step, and the name is not checked. A failure while the case
     * becomes current is not caught: the new case stays current.
     */
    method Create(caseDir: string, caseName: string, caseNumber: string, examiner: string,
                  configWritten: bool, dbCreated: bool) returns (r: Outcome<CaseError>)
      requires Valid()
      modifies this`current, this`trace, this`logDir, fs
      ensures Valid()
      ensures var (plan, planned) := PreparedDirectory(old(fs.disk), fs.broken, fs.Locked(), caseDir);
              var built := plan.Pass? && configWritten && dbCreated;
              var listed := TempListable(planned, fs.unreadable, Child(caseDir, TempFolder));
              (r.Pass? <==> built && listed)
              && (plan.Fail? ==> r == plan)
              && (plan.Pass? && !configWritten ==> r == Fail(ConfigNotCreated))
              && (plan.Pass? && configWritten && !dbCreated ==> r == Fail(DatabaseNotCreated(caseName, caseDir)))
              && (built && !listed ==> r == Fail(TempFolderUnlisted(Child(caseDir, TempFolder))))
              && (!built ==> fs.disk == planned && current == old(current) && trace == old(trace))
              && (built ==> fs.disk == if listed then ArrivalDisk(planned, fs.undeletable, fs.broken, caseDir) else planned)
      ensures PreparedDirectory(old(fs.disk), fs.broken, fs.Locked(), caseDir).0.Pass? && configWritten && dbCreated ==>
                (current.Some? && fresh(current.value) && fresh(current.value.db)
                && current.value.name == caseName && current.value.number == caseNumber
                && current.value.examiner == examiner
                && current.value.configFilePath == Child(caseDir, caseName + CaseDotExtension)
                && current.value.CaseDirectory() == caseDir
                && current.value.db.path == Child(caseDir, DatabaseFileName)
                && current.value.db.roots == [] && !current.value.hasData
                && current.value.db.errorObservers == [current.value]
                && fresh(current.value.config) && fresh(current.value.services) && current.value.Valid()
                && current.value.services.isOpen && current.value.config.isOpen && current.value.db.isOpen
                && trace == old(trace) + Transition(old(ViewOf(current)), ViewOf(current), defaultLogDir, faultyListeners, r.Pass?))
    {
      if caseDir !in Entries(fs.disk) {
        var made := CreateCaseDirectory(fs, caseDir);
        if made.Fail? {
          return made;
        }
      }
      if !configWritten {
        return Fail(ConfigNotCreated);
      }
      if !dbCreated {
        return Fail(DatabaseNotCreated(caseName, caseDir));
      }
      r := EnterCreated(caseDir, caseName, caseNumber, examiner);
    }

    /**
     * The objects Case.create builds once the configuration file is written
     * and the database created: an empty database that reports its errors to
     * the new case, and every part open.
     */
    static method NewCase(caseDir: string, caseName: string, caseNumber: string, examiner: string) returns (c: Case)
      ensures fresh(c) && fresh(c.db) && fresh(c.config) && fresh(c.services) && c.Valid() && !c.hasData
      ensures c.services.isOpen && c.config.isOpen && c.db.isOpen
      ensures c.name == caseName && c.number == caseNumber && c.examiner == examiner
      ensures c.configFilePath == Child(caseDir, caseName + CaseDotExtension) && c.CaseDirectory() == caseDir
      ensures c.db.path == Child(caseDir, DatabaseFileName) && c.db.roots == [] && c.db.available
      ensures c.db.errorObservers == [c]
    {
      var config := new ConfigStore(ConfigFile(caseName, caseNumber, examiner, caseDir));
      var db := new CaseDatabase.Created(Child(caseDir, DatabaseFileName));
      c := new Case(caseName, caseNumber, examiner, Child(caseDir, caseName + CaseDotExtension), config, db);
      c.Init();
    }

    /**
     * The last step of Case.create: the new case becomes current; when its temp
     * folder cannot be listed it stays current and the failure propagates.
     */
    method EnterCreated(caseDir: string, caseName: string, caseNumber: string, examiner: string)
      returns (r: Outcome<CaseError>)
      requires Valid()
      modifies this`current, this`trace, this`logDir, fs
      ensures Valid()
      ensures var listed := TempListable(old(fs.disk), fs.unreadable, Child(caseDir, TempFolder));
              r == (if listed then Pass else Fail(TempFolderUnlisted(Child(caseDir, TempFolder))))
              && fs.disk == if listed then ArrivalDisk(old(fs.disk), fs.undeletable, fs.broken, caseDir) else old(fs.disk)
      ensures current.Some? && fresh(current.value) && fresh(current.value.db)
              && fresh(current.value.config) && fresh(current.value.services)
      ensures var c := current.value;
              c.name == caseName && c.number == caseNumber && c.examiner == examiner
              && c.configFilePath == Child(caseDir, caseName + CaseDotExtension) && c.CaseDirectory() == caseDir
              && c.db.path == Child(caseDir, DatabaseFileName) && c.db.roots == [] && !c.hasData
              && c.db.errorObservers == [c] && c.Valid()
              && c.services.isOpen && c.config.isOpen && c.db.isOpen
              && trace == old(trace) + Transition(old(ViewOf(current)), Some(c.View()), defaultLogDir, faultyListeners, r.Pass?)
    {
      var newCase := NewCase(caseDir, caseName, caseNumber, examiner);
      r := ChangeCase(Some(newCase));
    }

    /**
     * The catch block of Case.open: the case that is current, if any, is
     * closed and its error dropped.
     */
    method AbandonOpen(closeFault: Option<CloseFault>)
      requires Valid()
      modifies this`current, this`trace, this`logDir
      modifies ServicesOf(current)`isOpen, ConfigsOf(current)`isOpen, DatabasesOf(current)`isOpen
      ensures Valid() && current == None
      ensures trace == old(trace) + (if old(current).Some?
                                     then Transition(old(ViewOf(current)), None, defaultLogDir, faultyListeners, true) + Releases(closeFault)
                                     else [])
      ensures old(current).Some? ==>
                ClosedInOrder(old(current).value, closeFault, old(current.value.services.isOpen),
                              old(current.value.config.isOpen), old(current.value.db.isOpen))
    {
      if current.Some? {
        var closed := current.value.CloseCase(this, closeFault);
      }
    }

    /**
     * The guarded block of Case.open up to the change of case: the database is
     * opened in the directory the configuration file names, and the user is
     * told of an upgrade and of each image that cannot be found.
     */
    method LoadCase(configFilePath: string, file: ConfigFile, image: DbImage)
      returns (c: Case, ghost prompts: seq<MissingImage>)
      requires Valid()
      modifies this`trace
      ensures Valid()
      ensures fresh(c) && fresh(c.db) && fresh(c.config) && fresh(c.services) && c.Valid() && !c.hasData
      ensures c.services.isOpen && c.config.isOpen && c.db.isOpen
      ensures c.name == file.name && c.number == file.number && c.examiner == file.examiner
      ensures c.configFilePath == configFilePath && c.CaseDirectory() == file.caseDir
      ensures c.db.path == Child(file.caseDir, DatabaseFileName) && c.db.errorObservers == [c]
      ensures c.db.roots == image.roots && c.db.imagePaths == image.imagePaths && c.db.available == image.available
      ensures trace == old(trace) + RestoredNotice(image.backupPath) + MissingNotices(prompts)
      ensures forall i :: 0 <= i < |prompts| ==>
                (FirstPath(c.db, prompts[i].id, prompts[i].path) && !ImagePresent(fs, prompts[i].path))
      ensures forall id, path :: FirstPath(c.db, id, path) && !ImagePresent(fs, path) ==> MissingImage(id, path) in prompts
    {
      var config := new ConfigStore(file);
      var db := new CaseDatabase.Opened(Child(file.caseDir, DatabaseFileName), image);
      var missing := CheckImagesExist(fs, db);
      prompts := missing;
      var notices := RestoredNotice(db.backupPath) + MissingNotices(missing);
      NoticesQuiet(db.backupPath, missing, current);
      ReplayQuiet(trace, notices, None, current);
      trace := trace + notices;
      c := new Case(file.name, file.number, file.examiner, configFilePath, config, db);
      c.Init();
    }

    /**
     * The last step of Case.open's guarded block: the opened case becomes
     * current; when that fails, the catch block closes it again.
     */
    method EnterOpened(c: Case, closeFault: Option<CloseFault>) returns (r: Outcome<CaseError>)
      requires Valid() && c.Valid() && !c.hasData
      requires c.services.isOpen && c.config.isOpen && c.db.isOpen
      modifies this`current, this`trace, this`logDir, fs, c`hasData, c.db`rootQueries
      modifies c.services`isOpen, c.config`isOpen, c.db`isOpen
      ensures Valid()
      ensures r.Pass? <==> TempListable(old(fs.disk), fs.unreadable, c.TempDirectory())
      ensures r.Pass? ==> (current == Some(c) && c.Valid()
                && c.services.isOpen && c.config.isOpen && c.db.isOpen
                && c.hasData == (c.db.available && |c.db.roots| > 0)
                && fs.disk == ArrivalDisk(old(fs.disk), fs.undeletable, fs.broken, c.CaseDirectory())
                && trace == old(trace) + Transition(old(ViewOf(current)), Some(c.View()), defaultLogDir, faultyListeners, true))
      ensures r.Fail? ==> (current == None && fs.disk == old(fs.disk)
                && trace == old(trace) + Transition(old(ViewOf(current)), Some(c.View()), defaultLogDir, faultyListeners, false)
                            + Transition(Some(c.View()), None, defaultLogDir, faultyListeners, true) + Releases(closeFault)
                && ClosedInOrder(c, closeFault, true, true, true))
    {
      r := ChangeCase(Some(c));
      if r.Fail? {
        ghost var t := trace;
        AbandonOpen(closeFault);
        assert trace == t + Transition(Some(c.View()), None, defaultLogDir, faultyListeners, true) + Releases(closeFault);
      }
    }

    /**
     * Case.open once the configuration file is read and the database opened:
     * the case is loaded and made current, or closed again when that fails.
     */
    method OpenStored(configFilePath: string, file: ConfigFile, image: DbImage, closeFault: Option<CloseFault>)
      returns (r: Outcome<CaseError>, ghost prompts: seq<MissingImage>, c: Case)
      requires Valid()
      modifies this`current, this`trace, this`logDir, fs
      ensures Valid()
      ensures r.Pass? <==> TempListable(old(fs.disk), fs.unreadable, Child(file.caseDir, TempFolder))
      ensures r.Fail? ==> r == Fail(OpenError(configFilePath, TempUnlisted)) && current == None && fs.disk == old(fs.disk)
      ensures fresh(c) && fresh(c.db) && fresh(c.config) && fresh(c.services)
      ensures c.name == file.name && c.number == file.number && c.examiner == file.examiner
      ensures c.configFilePath == configFilePath && c.CaseDirectory() == file.caseDir
      ensures c.db.path == Child(file.caseDir, DatabaseFileName) && c.db.errorObservers == [c]
      ensures c.db.roots == image.roots && c.db.available == image.available
      ensures forall i :: 0 <= i < |prompts| ==>
                (FirstPath(c.db, prompts[i].id, prompts[i].path)
                 && prompts[i].path !in old(fs.disk).files && prompts[i].path !in fs.readable)
      ensures forall id, path ::
                FirstPath(c.db, id, path) && path !in old(fs.disk).files && path !in fs.readable
                ==> MissingImage(id, path) in prompts
      ensures r.Pass? ==>
                current == Some(c) && c.Valid()
                && c.services.isOpen && c.config.isOpen && c.db.isOpen
                && c.hasData == (image.available && |image.roots| > 0)
                && fs.disk == ArrivalDisk(old(fs.disk), fs.undeletable, fs.broken, file.caseDir)
                && trace == old(trace) + RestoredNotice(image.backupPath) + MissingNotices(prompts)
                              + Transition(old(ViewOf(current)), Some(c.View()), defaultLogDir, faultyListeners, true)
      ensures r.Fail? ==>
                trace == old(trace) + RestoredNotice(image.backupPath) + MissingNotices(prompts)
                           + Transition(old(ViewOf(current)), Some(c.View()), defaultLogDir, faultyListeners, false)
                           + Transition(Some(c.View()), None, defaultLogDir, faultyListeners, true) + Releases(closeFault)
                && ClosedInOrder(c, closeFault, true, true, true)
    {
      ghost var leaving := ViewOf(current);
      c, prompts := LoadCase(configFilePath, file, image);
      ghost var loadedTrace := trace;
      var changed := EnterOpened(c, closeFault);
      assert leaving == old(ViewOf(current));
      assert loadedTrace == old(trace) + RestoredNotice(image.backupPath) + MissingNotices(prompts);
      r := if changed.Fail? then Fail(OpenError(configFilePath, TempUnlisted)) else Pass;
    }

    /**
     * Case.open: the configuration file is read (a blank name is refused),
     * the case loaded and made current. Any failure closes the case that is
     * current at that point (the previous one, or the opened one when making
     * it current failed) and is rethrown, with a message that depends on the
     * file's extension. `loaded` is the case object built, if any.
     */
    method Open(configFilePath: string, stored: Option<ConfigFile>, image: Option<DbImage>,
                closeFault: Option<CloseFault>)
      returns (r: Outcome<CaseError>, ghost prompts: seq<MissingImage>, ghost loaded: Option<Case>)
      requires Valid()
      modifies this`current, this`trace, this`logDir, fs
      modifies ServicesOf(current)`isOpen, ConfigsOf(current)`isOpen, DatabasesOf(current)`isOpen
      ensures Valid()
      ensures r.Pass? <==> OpenFailureOf(stored, image, old(fs.disk), fs.unreadable).None?
      ensures loaded.Some? <==> OpenCause(stored, image).None?
      ensures r.Fail? ==> (r.error == OpenError(configFilePath, OpenFailureOf(stored, image, old(fs.disk), fs.unreadable).value)
                && current == None && fs.disk == old(fs.disk))
      ensures loaded.None? ==>
                (trace == old(trace) + (if old(current).Some?
                                        then Transition(old(ViewOf(current)), None, defaultLogDir, faultyListeners, true) + Releases(closeFault)
                                        else [])
                && (old(current).Some? ==>
                      ClosedInOrder(old(current).value, closeFault, old(current.value.services.isOpen),
                                    old(current.value.config.isOpen), old(current.value.db.isOpen))))
      ensures loaded.Some? ==>
                var c := loaded.value;
                fresh(c) && fresh(c.db) && fresh(c.config) && fresh(c.services)
                && c.name == stored.value.name && c.number == stored.value.number
                && c.examiner == stored.value.examiner
                && c.configFilePath == configFilePath && c.CaseDirectory() == stored.value.caseDir
                && c.db.path == Child(stored.value.caseDir, DatabaseFileName)
                && c.db.roots == image.value.roots && c.db.errorObservers == [c]
                && (forall i :: 0 <= i < |prompts| ==>
                      (FirstPath(c.db, prompts[i].id, prompts[i].path)
                       && prompts[i].path !in old(fs.disk).files && prompts[i].path !in fs.readable))
                && (forall id, path ::
                      FirstPath(c.db, id, path) && path !in old(fs.disk).files && path !in fs.readable
                      ==> MissingImage(id, path) in prompts)
      ensures loaded.Some? && old(current).Some? ==>
                old(current).value.services.isOpen == old(current.value.services.isOpen)
                && old(current).value.config.isOpen == old(current.value.config.isOpen)
                && old(current).value.db.isOpen == old(current.value.db.isOpen)
      ensures loaded.Some? && r.Pass? ==>
                current == loaded && loaded.value.Valid()
                && loaded.value.services.isOpen && loaded.value.config.isOpen && loaded.value.db.isOpen
                && loaded.value.db.available == image.value.available
                && loaded.value.hasData == (image.value.available && |image.value.roots| > 0)
                && fs.disk == ArrivalDisk(old(fs.disk), fs.undeletable, fs.broken, stored.value.caseDir)
                && trace == old(trace) + RestoredNotice(image.value.backupPath) + MissingNotices(prompts)
                              + Transition(old(ViewOf(current)), ViewOf(loaded), defaultLogDir, faultyListeners, true)
      ensures loaded.Some? && r.Fail? ==>
                trace == old(trace) + RestoredNotice(image.value.backupPath) + MissingNotices(prompts)
                           + Transition(old(ViewOf(current)), ViewOf(loaded), defaultLogDir, faultyListeners, false)
                           + Transition(ViewOf(loaded), None, defaultLogDir, faultyListeners, true) + Releases(closeFault)
                && ClosedInOrder(loaded.value, closeFault, true, true, true)
    {
      prompts := [];
      loaded := None;
      var cause := OpenCause(stored, image);
      if cause.Some? {
        AbandonOpen(closeFault);
        return Fail(OpenError(configFilePath, cause.value)), prompts, loaded;
      }
      var openedCase;
      r, prompts, openedCase := OpenStored(configFilePath, stored.value, image.value, closeFault);
      loaded := Some(openedCase);
    }
  }
}
