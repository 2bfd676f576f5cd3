/**
 * Constants of the case module and the string predicates it applies to case
 * names and to data-source paths (Case.java).
 */
module CaseNames {

  /** File.separator; the model fixes it to the POSIX separator. */
  const Separator: string := "/"

  /** Extension of a case configuration file, with and without its dot. */
  const CaseExtension: string := "aut"
  const CaseDotExtension: string := "." + CaseExtension

  /** Name of the case database file under the case root. */
  const DatabaseFileName: string := "autopsy.db"

  /** Fixed subfolders of a case root. */
  const ExportFolder: string := "export"
  const LogFolder: string := "log"
  const TempFolder: string := "temp"
  const CacheFolder: string := "cache"
  const ModulesOutputFolder: string := "ModuleOutput"

  /** Characters a case name must not contain. */
  const ForbiddenNameChars: set<char> := {'\\', '/', ':', '*', '?', '"', '<', '>', '|'}

  /** Device-path prefixes recognised as physical drives, and the Windows device namespace. */
  const PhysicalDrivePrefix: string := "\\\\.\\physicaldrive"
  const DevicePrefix: string := "/dev/"
  const DeviceNamespace: string := "\\\\.\\"

  function StartsWith(s: string, prefix: string): bool {
    |prefix| <= |s| && s[..|prefix|] == prefix
  }

  function EndsWith(s: string, suffix: string): bool {
    |suffix| <= |s| && s[|s| - |suffix|..] == suffix
  }

  /** String.toLowerCase, restricted to ASCII letters. */
  function LowerChar(c: char): char {
    if 'A' <= c <= 'Z' then (c as int + 32) as char else c
  }

  function Lower(s: string): (r: string)
    ensures |r| == |s|
    ensures forall i :: 0 <= i < |s| ==> r[i] == LowerChar(s[i])
  {
    seq(|s|, i requires 0 <= i < |s| => LowerChar(s[i]))
  }

  /** `s` begins with `prefix` when letters of `s` are compared without regard to case. */
  predicate BeginsIgnoringCase(s: string, prefix: string) {
    |prefix| <= |s| && forall i :: 0 <= i < |prefix| ==> LowerChar(s[i]) == prefix[i]
  }

  /** Case.isValidName: true when the name contains none of the forbidden characters. */
  function IsValidName(caseName: string): (valid: bool)
    ensures valid <==> forall i :: 0 <= i < |caseName| ==> caseName[i] !in ForbiddenNameChars
  {
    !('\\' in caseName || '/' in caseName || ':' in caseName
      || '*' in caseName || '?' in caseName || '"' in caseName
      || '<' in caseName || '>' in caseName || '|' in caseName)
  }

  /** Case.isPhysicalDrive: a case-insensitive prefix test for a Windows drive or a Unix device. */
  function IsPhysicalDrive(path: string): (drive: bool)
    ensures drive <==> BeginsIgnoringCase(path, PhysicalDrivePrefix) || BeginsIgnoringCase(path, DevicePrefix)
  {
    StartsWith(Lower(path), PhysicalDrivePrefix) || StartsWith(Lower(path), DevicePrefix)
  }

  /** Case.isPartition: the lower-cased path lies in the device namespace and ends with a colon. */
  function IsPartition(path: string): (partition: bool)
    ensures partition <==> BeginsIgnoringCase(path, DeviceNamespace) && 0 < |path| && path[|path| - 1] == ':'
    ensures partition ==> |path| > |DeviceNamespace|
  {
    StartsWith(Lower(path), DeviceNamespace) && EndsWith(Lower(path), ":")
  }
}
