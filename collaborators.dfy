/**
 * The collaborators the case manager drives but does not own: the file system,
 * the case configuration file (XMLCaseManagement), the case database
 * (SleuthkitCase) and the services aggregate. Only the state the manager reads
 * or changes is kept; a call that can throw in the source either reads a health
 * flag kept here or takes its outcome as a parameter of the calling operation.
 */
module Collaborators {
  import opened Wrappers
  import opened CaseNames

  /** A root object of a case database: an image (with its time zone) or a local file set. */
  datatype DataSource = DataSource(id: int, isImage: bool, timeZone: string)

  /** A report row of a case database. */
  datatype Report = Report(path: string, moduleName: string, reportName: string)

  /** TskCoreException from the case database. */
  datatype StoreFault = StoreFault

  /** The directories and plain files that exist. */
  datatype Disk = Disk(dirs: set<string>, files: set<string>)

  function Entries(d: Disk): set<string> {
    d.dirs + d.files
  }

  /** `p` is `root` or lies below it. */
  predicate Under(p: string, root: string) {
    p == root || StartsWith(p, root + Separator)
  }

  /** File.mkdir (and File.mkdirs, parents aside): fails when the path exists or cannot be created. */
  function MakeDir(d: Disk, broken: set<string>, p: string): (Disk, bool) {
    if p in Entries(d) || p in broken then (d, false) else (Disk(d.dirs + {p}, d.files), true)
  }

  /** `p` lies above (or is) an entry that cannot be deleted, so a recursive delete leaves it. */
  predicate Pinned(d: Disk, undeletable: set<string>, p: string) {
    exists q :: q in undeletable && q in Entries(d) && Under(q, p)
  }

  /**
   * A recursive delete of `root` (FileUtil.deleteDir): every entry at or below
   * `root` goes, except those above an entry that cannot be deleted.
   */
  function RemoveTree(d: Disk, undeletable: set<string>, root: string): Disk {
    var gone := set p | p in Entries(d) && Under(p, root) && !Pinned(d, undeletable, p);
    Disk(d.dirs - gone, d.files - gone)
  }

  /** A delete succeeds when nothing at or below `root` is undeletable. */
  predicate Deletable(d: Disk, undeletable: set<string>, root: string) {
    forall q :: q in undeletable && q in Entries(d) ==> !Under(q, root)
  }

  /** A successful recursive delete leaves nothing at or below the root, and nothing else changes. */
  lemma RemoveTreeEffect(d: Disk, undeletable: set<string>, root: string)
    requires Deletable(d, undeletable, root)
    ensures forall p :: p in Entries(RemoveTree(d, undeletable, root)) ==> !Under(p, root)
    ensures forall p :: !Under(p, root) ==>
              (p in RemoveTree(d, undeletable, root).dirs <==> p in d.dirs)
              && (p in RemoveTree(d, undeletable, root).files <==> p in d.files)
  {
    forall p | p in Entries(RemoveTree(d, undeletable, root)) && Under(p, root)
      ensures false
    {
      var q :| q in undeletable && q in Entries(d) && Under(q, p);
      UnderTransitive(q, p, root);
    }
  }

  lemma UnderTransitive(a: string, b: string, c: string)
    requires Under(a, b) && Under(b, c)
    ensures Under(a, c)
  {
    if a != b && b != c {
      assert a[..|b + Separator|] == b + Separator;
      assert b[..|c + Separator|] == c + Separator;
      assert a[..|c + Separator|] == b[..|c + Separator|];
    }
  }

  /** The file system as the case module sees it. */
  class FileSystem {
    var disk: Disk
    /** Paths that File.canRead reports false for; listFiles yields null for such a directory. */
    const unreadable: set<string>
    /** Paths that File.canWrite reports false for. */
    const unwritable: set<string>
    /** Paths where creating a directory fails. */
    const broken: set<string>
    /** Entries a delete cannot remove. */
    const undeletable: set<string>
    /** Paths from which a first byte can be read (devices and non-empty files). */
    const readable: set<string>

    constructor (disk: Disk, unreadable: set<string>, unwritable: set<string>, broken: set<string>,
                 undeletable: set<string>, readable: set<string>)
      ensures this.disk == disk && this.unreadable == unreadable && this.unwritable == unwritable
      ensures this.broken == broken
      ensures this.undeletable == undeletable && this.readable == readable
    {
      this.disk := disk;
      this.unreadable := unreadable;
      this.unwritable := unwritable;
      this.broken := broken;
      this.undeletable := undeletable;
      this.readable := readable;
    }

    /** Paths that cannot be read or cannot be written. */
    function Locked(): set<string> {
      unreadable + unwritable
    }

    method Mkdir(p: string) returns (ok: bool)
      modifies this
      ensures (disk, ok) == MakeDir(old(disk), broken, p)
    {
      ok := p !in disk.dirs && p !in disk.files && p !in broken;
      if ok {
        disk := Disk(disk.dirs + {p}, disk.files);
      }
    }

    /** FileUtil.deleteDir: true when the whole tree went. */
    method DeleteDir(root: string) returns (ok: bool)
      modifies this
      ensures disk == RemoveTree(old(disk), undeletable, root)
      ensures ok == Deletable(old(disk), undeletable, root)
    {
      ok := Deletable(disk, undeletable, root);
      disk := RemoveTree(disk, undeletable, root);
    }

    /** File.delete on a plain file. */
    method DeleteFile(p: string) returns (ok: bool)
      modifies this
      ensures ok == (p in old(disk).files && p !in undeletable)
      ensures disk == if ok then Disk(old(disk).dirs, old(disk).files - {p}) else old(disk)
    {
      ok := p in disk.files && p !in undeletable;
      if ok {
        disk := Disk(disk.dirs, disk.files - {p});
      }
    }
  }

  /** The case identity held by a configuration file. */
  datatype ConfigFile = ConfigFile(name: string, number: string, examiner: string, caseDir: string)

  /** An open case configuration file (XMLCaseManagement). */
  class ConfigStore {
    var name: string
    var number: string
    var examiner: string
    const caseDir: string
    var isOpen: bool

    constructor (file: ConfigFile)
      ensures name == file.name && number == file.number && examiner == file.examiner
      ensures caseDir == file.caseDir && isOpen
    {
      name := file.name;
      number := file.number;
      examiner := file.examiner;
      caseDir := file.caseDir;
      isOpen := true;
    }

    method SetCaseName(newName: string)
      modifies this`name
      ensures name == newName
    {
      name := newName;
    }

    method SetCaseNumber(newNumber: string)
      modifies this`number
      ensures number == newNumber
    {
      number := newNumber;
    }

    method SetCaseExaminer(newExaminer: string)
      modifies this`examiner
      ensures examiner == newExaminer
    {
      examiner := newExaminer;
    }

    method Close()
      modifies this`isOpen
      ensures !isOpen
    {
      isOpen := false;
    }

    function ExportDir(): string {
      caseDir + Separator + ExportFolder
    }

    function LogDir(): string {
      caseDir + Separator + LogFolder
    }

    function TempDir(): string {
      caseDir + Separator + TempFolder
    }

    function CacheDir(): string {
      caseDir + Separator + CacheFolder
    }
  }

  /** What an existing case database holds when it is opened. */
  datatype DbImage = DbImage(roots: seq<DataSource>, imagePaths: map<int, seq<string>>,
                             backupPath: Option<string>, available: bool)

  /** The first image among `roots` with the given id (SleuthkitCase.getImageById). */
  function FindImage(roots: seq<DataSource>, id: int): (r: Option<DataSource>)
    ensures r.Some? ==> r.value in roots && r.value.id == id && r.value.isImage
    ensures r.None? ==> forall ds :: ds in roots ==> !(ds.id == id && ds.isImage)
  {
    if roots == [] then None
    else if roots[0].id == id && roots[0].isImage then Some(roots[0])
    else FindImage(roots[1..], id)
  }

  /** An open case database (SleuthkitCase). */
  class CaseDatabase {
    const path: string
    var roots: seq<DataSource>
    const imagePaths: map<int, seq<string>>
    var reports: seq<Report>
    /** Set when the database was upgraded from a backup on open. */
    const backupPath: Option<string>
    /** Whether queries succeed; when false every query throws. */
    const available: bool
    var isOpen: bool
    var errorObservers: seq<object>
    /** Round trips made to list the root objects. */
    ghost var rootQueries: nat

    /** SleuthkitCase.newCase: an empty database. */
    constructor Created(path: string)
      ensures this.path == path && roots == [] && imagePaths == map[] && reports == []
      ensures backupPath == None && available && isOpen && errorObservers == [] && rootQueries == 0
    {
      this.path := path;
      roots := [];
      imagePaths := map[];
      reports := [];
      backupPath := None;
      available := true;
      isOpen := true;
      errorObservers := [];
      rootQueries := 0;
    }

    /** SleuthkitCase.openCase: the database found at `path`. */
    constructor Opened(path: string, image: DbImage)
      ensures this.path == path && roots == image.roots && imagePaths == image.imagePaths
      ensures reports == [] && backupPath == image.backupPath && available == image.available
      ensures isOpen && errorObservers == [] && rootQueries == 0
    {
      this.path := path;
      roots := image.roots;
      imagePaths := image.imagePaths;
      reports := [];
      backupPath := image.backupPath;
      available := image.available;
      isOpen := true;
      errorObservers := [];
      rootQueries := 0;
    }

    /** getRootObjects. */
    method RootObjects() returns (r: Result<seq<DataSource>, StoreFault>)
      modifies this`rootQueries
      ensures rootQueries == old(rootQueries) + 1
      ensures r == if available then Ok(roots) else Err(StoreFault)
    {
      rootQueries := rootQueries + 1;
      r := if available then Ok(roots) else Err(StoreFault);
    }

    /** getImagePaths: the paths recorded for each image id. */
    function ImagePaths(): Result<map<int, seq<string>>, StoreFault> {
      if available then Ok(imagePaths) else Err(StoreFault)
    }

    function ImageById(id: int): Result<DataSource, StoreFault>
      reads this
    {
      if !available then Err(StoreFault)
      else match FindImage(roots, id)
        case Some(ds) => Ok(ds)
        case None => Err(StoreFault)
    }

    function AllReports(): Result<seq<Report>, StoreFault>
      reads this
    {
      if available then Ok(reports) else Err(StoreFault)
    }

    method AddReport(localPath: string, moduleName: string, reportName: string)
      returns (r: Result<Report, StoreFault>)
      modifies this`reports
      ensures available ==> r == Ok(Report(localPath, moduleName, reportName))
                            && reports == old(reports) + [r.value]
      ensures !available ==> r == Err(StoreFault) && reports == old(reports)
    {
      if available {
        var report := Report(localPath, moduleName, reportName);
        reports := reports + [report];
        r := Ok(report);
      } else {
        r := Err(StoreFault);
      }
    }

    /** A data source recorded by an ingest process outside the case module. */
    method AddRootObject(ds: DataSource)
      modifies this`roots
      ensures roots == old(roots) + [ds]
    {
      roots := roots + [ds];
    }

    method Close()
      modifies this`isOpen
      ensures !isOpen
    {
      isOpen := false;
    }

    method AddErrorObserver(observer: object)
      modifies this`errorObservers
      ensures errorObservers == old(errorObservers) + [observer]
    {
      errorObservers := errorObservers + [observer];
    }
  }

  /** The per-case services aggregate; only whether it is open matters here. */
  class Services {
    var isOpen: bool

    constructor ()
      ensures isOpen
    {
      isOpen := true;
    }

    method Close()
      modifies this`isOpen
      ensures !isOpen
    {
      isOpen := false;
    }
  }
}
