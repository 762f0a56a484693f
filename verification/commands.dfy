/** The external commands `Blkid::mount` and `Blkid::umount` run, as the
    program name and argument vector they hand to the operating system. */
module Commands {
  import opened Results
  import opened Records

  datatype Command = Command(program: string, args: seq<string>)

  /** What a `mount` argument vector asks for: the device, the mount point and
      whether the file-system type is forced to NTFS. */
  datatype MountRequest = MountRequest(device: string, path: string, ntfs: bool)

  /** `Blkid::mount`: `mount -o rw [-t ntfs] <name> <path>`, with `-t ntfs`
      exactly for an `ntfs` record. */
  function MountCommand(b: Blkid, path: string): (cmd: Command)
    ensures cmd.program == "mount"
    ensures |cmd.args| == (if b.dType == "ntfs" then 6 else 4)
    ensures cmd.args[..2] == ["-o", "rw"]
    ensures b.dType == "ntfs" ==> cmd.args[2..4] == ["-t", "ntfs"]
    ensures cmd.args[|cmd.args| - 2..] == [b.name, path]
  {
    var typeArgs := if b.dType == "ntfs" then ["-t", "ntfs"] else [];
    Command("mount", ["-o", "rw"] + typeArgs + [b.name, path])
  }

  /** `Blkid::umount`: `umount <path>`; the record itself is not passed. */
  function UmountCommand(b: Blkid, path: string): (cmd: Command)
    ensures cmd.program == "umount" && |cmd.args| == 1 && cmd.args[0] == path
  {
    Command("umount", [path])
  }

  /** Reads a `mount` argument vector of the two shapes `Blkid::mount` builds. */
  function ReadMountArgs(args: seq<string>): (r: Option<MountRequest>)
    ensures r.Some? ==> |args| >= 4 && args[..2] == ["-o", "rw"]
                        && args[|args| - 2..] == [r.value.device, r.value.path]
    ensures r.Some? ==> (r.value.ntfs <==> |args| == 6)
  {
    if |args| == 4 && args[..2] == ["-o", "rw"] then
      Some(MountRequest(args[2], args[3], false))
    else if |args| == 6 && args[..4] == ["-o", "rw", "-t", "ntfs"] then
      Some(MountRequest(args[4], args[5], true))
    else None
  }

  /** The vector `Blkid::mount` builds names the record's device and the
      path, and forces NTFS exactly when the record's type is `ntfs`. */
  lemma MountArgsRoundTrip(b: Blkid, path: string)
    ensures ReadMountArgs(MountCommand(b, path).args)
         == Some(MountRequest(b.name, path, b.dType == "ntfs"))
  {
  }

  /** Two records with the same name and the same answer to "is it ntfs"
      mount with the same vector, and only then: the vector depends on nothing
      else of the record. */
  lemma MountArgsDependOnNameAndNtfs(b1: Blkid, b2: Blkid, path: string)
    ensures MountCommand(b1, path) == MountCommand(b2, path)
        <==> b1.name == b2.name && (b1.dType == "ntfs") == (b2.dType == "ntfs")
  {
    if MountCommand(b1, path) == MountCommand(b2, path) {
      MountArgsRoundTrip(b1, path);
      MountArgsRoundTrip(b2, path);
    }
  }
}
