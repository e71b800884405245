/**
 * The FTP manager: a client object whose only state that matters here is whether it
 * holds an FTP client and which remote directory the session is in. Every reply of the
 * server is a parameter of the method that receives it.
 */
module Ftp {
  import opened Wrappers
  import opened Dates
  import opened DateNames
  import opened Locator
  import opened FilePicker

  /** A remote directory: the folder names leading to it from the server's root directory. */
  type Path = seq<string>

  /** The directory above `p`; the root has none, and going up from it stays at the root. */
  function Parent(p: Path): (q: Path)
    ensures |q| == if p == [] then 0 else |p| - 1
    ensures q <= p
  {
    if p == [] then [] else p[..|p| - 1]
  }

  /** A name that `cwd` goes down into: not "..", and not "" or "." (ftplib sends `cwd('')` as `CWD .`). */
  predicate IsSubfolderName(name: string)
  {
    name != "" && name != "." && name != ".."
  }

  /**
   * Where an accepted `cwd(name)` leads from `p`: ".." goes up one level, "" and "."
   * stay where they are, any other name goes into that folder.
   */
  function ChangeDir(p: Path, name: string): (q: Path)
    ensures IsSubfolderName(name) ==> |q| == |p| + 1 && q[..|p|] == p && q[|p|] == name
    ensures name == ".." ==> q == Parent(p)
    ensures name == "" || name == "." ==> q == p
  {
    if name == ".." then Parent(p) else if name == "" || name == "." then p else p + [name]
  }

  /** Going into a folder and then to ".." returns to where one started. */
  lemma EnterThenLeave(p: Path, name: string)
    requires IsSubfolderName(name)
    ensures ChangeDir(ChangeDir(p, name), "..") == p
  {
  }

  /** How the server answers the connect, login and `cwd(target_dir)` sequence. */
  datatype ConnectReply =
    | Connected
      /** `error` is the text of the exception; `directories` is what `str(nlst())` gives, or None if that listing fails. */
    | ConnectFailed(error: string, directories: Option<string>)

  /** A `cwd` command: accepted, or an exception with its text. */
  datatype CwdReply = Accepted | Rejected(error: string)

  /** An `nlst` command: the names, an `error_perm` (a 5xx reply), or any other exception. */
  datatype ListReply = Names(names: seq<string>) | PermissionError(error: string) | OtherError(error: string)

  /** A `retrbinary` into a local file: done, or an exception with its text. */
  datatype TransferReply = Transferred | TransferFailed(error: string)

  /** The pair `find_latest_date_folder` returns. */
  datatype FolderAnswer = FolderAnswer(folder: Option<string>, message: string)

  /** The triple `get_files_in_folder` returns. */
  datatype FilesAnswer = FilesAnswer(pdf: Option<string>, png: Option<string>, message: string)

  /** `t in s` on strings. */
  predicate Contains(s: string, t: string)
    ensures Contains(s, t) ==> |t| <= |s|
    decreases |s|
  {
    |t| <= |s| && (s[..|t|] == t || (s != [] && Contains(s[1..], t)))
  }

  /** `t` occurs in `s` starting at position `i`. */
  predicate OccursAt(s: string, t: string, i: nat)
  {
    i + |t| <= |s| && s[i..i + |t|] == t
  }

  /** `Contains` holds exactly when `t` occurs at some position of `s`. */
  lemma {:induction false} ContainsAt(s: string, t: string)
    ensures Contains(s, t) <==> exists i: nat :: OccursAt(s, t, i)
    decreases |s|
  {
    if |t| <= |s| && s != [] {
      ContainsAt(s[1..], t);
      if s[..|t|] == t {
        assert OccursAt(s, t, 0);
      } else {
        if exists i: nat :: OccursAt(s, t, i) {
          var i: nat :| OccursAt(s, t, i);
          assert i > 0 && s[1..][i - 1..i - 1 + |t|] == s[i..i + |t|];
          assert OccursAt(s[1..], t, i - 1);
        }
        if Contains(s[1..], t) {
          var i: nat :| OccursAt(s[1..], t, i);
          assert s[i + 1..i + 1 + |t|] == s[1..][i..i + |t|];
          assert OccursAt(s, t, i + 1);
        }
      }
    } else if |t| <= |s| {
      assert OccursAt(s, t, 0);
    } else {
      assert forall i: nat :: !OccursAt(s, t, i);
    }
  }

  const DirectoriesNote := ". Available directories: "

  /**
   * The message of a failed connect: the exception text, followed by the directory
   * listing when the text contains "550" and that listing succeeded.
   */
  function ConnectFailureMessage(error: string, directories: Option<string>): (m: string)
    ensures |error| <= |m| && m[..|error|] == error
    ensures m != error <==> Contains(error, "550") && directories.Some?
    ensures m != error ==> m[|error|..] == DirectoriesNote + directories.value
  {
    if Contains(error, "550") && directories.Some? then error + DirectoriesNote + directories.value else error
  }

  /** What `get_files_in_folder` reports once the folder's names are listed. */
  function FilesFound(files: seq<string>): (r: FilesAnswer)
    ensures r.png.Some? ==> r.pdf.Some?
    ensures r.pdf.Some? ==> r.pdf.value in files && EndsWithIgnoringCase(r.pdf.value, PdfSuffix)
    ensures r.png.Some? ==> r.png.value in files && EndsWithIgnoringCase(r.png.value, PngSuffix)
  {
    var pdf := LastWithSuffix(files, PdfSuffix);
    var png := LastWithSuffix(files, PngSuffix);
    if pdf.None? then FilesAnswer(None, None, "No PDF file found in folder")
    else if png.None? then FilesAnswer(pdf, None, "No PNG file found (PDF only)")
    else FilesAnswer(pdf, png, "Found files")
  }

  /** A folder without a PDF yields no files, even when it holds a PNG; a PDF is reported exactly when the folder holds one. */
  lemma FilesFoundWithoutPdf(files: seq<string>)
    ensures FilesFound(files).pdf.Some? <==> exists j :: 0 <= j < |files| && EndsWithIgnoringCase(files[j], PdfSuffix)
    ensures FilesFound(files).pdf.None? ==> FilesFound(files) == FilesAnswer(None, None, "No PDF file found in folder")
  {
    var _ := LastWithSuffixIsLastMatch(files, PdfSuffix);
  }

  /**
   * A folder with a PDF yields its last PDF and its last PNG, or the PDF alone when it
   * holds no PNG: a missing PNG is never a failure.
   */
  lemma FilesFoundWithPdf(files: seq<string>, k: nat)
    requires k < |files| && EndsWithIgnoringCase(files[k], PdfSuffix)
    ensures FilesFound(files).pdf.Some? && FilesFound(files).pdf.value in files
    ensures EndsWithIgnoringCase(FilesFound(files).pdf.value, PdfSuffix)
    ensures FilesFound(files).pdf == LastWithSuffix(files, PdfSuffix)
    ensures FilesFound(files).png == LastWithSuffix(files, PngSuffix)
    ensures FilesFound(files).png.None? <==> forall j :: 0 <= j < |files| ==> !EndsWithIgnoringCase(files[j], PngSuffix)
    ensures FilesFound(files).png.Some? ==> FilesFound(files).png.value in files
    ensures FilesFound(files).message == if FilesFound(files).png.None? then "No PNG file found (PDF only)" else "Found files"
  {
    var _ := LastWithSuffixIsLastMatch(files, PdfSuffix);
    var _ := LastWithSuffixIsLastMatch(files, PngSuffix);
  }

  /** The text of the first command of the folder visit that failed. */
  function FirstFailure(enter: CwdReply, listing: ListReply, leave: CwdReply): (e: string)
    ensures enter.Rejected? ==> e == enter.error
    ensures enter.Accepted? && !listing.Names? ==> e == listing.error
    ensures enter.Accepted? && listing.Names? && leave.Rejected? ==> e == leave.error
  {
    if enter.Rejected? then enter.error
    else if !listing.Names? then listing.error
    else if leave.Rejected? then leave.error
    else ""
  }

  class FtpManager {
    const host: string
    const port: int
    const user: string
    const password: string
    const targetDir: string
    /** The directory a session starts in after login (the server's home directory for `user`). */
    const startPath: Path
    /** The remote directory that `cwd(target_dir)` leads to from `startPath`. */
    const targetPath: Path

    /** `self.ftp is not None`. */
    var hasClient: bool
    /** The remote working directory of the session. */
    var cwd: Path

    constructor (host: string, port: int, user: string, password: string, targetDir: string, startPath: Path, targetPath: Path)
      ensures this.host == host && this.port == port && this.user == user && this.password == password
      ensures this.targetDir == targetDir && this.startPath == startPath && this.targetPath == targetPath
      ensures !hasClient && cwd == startPath
    {
      this.host, this.port, this.user, this.password := host, port, user, password;
      this.targetDir, this.startPath, this.targetPath := targetDir, startPath, targetPath;
      hasClient, cwd := false, startPath;
    }

    /**
     * `connect`: the client object is created before anything can fail, so the manager
     * holds a client afterwards whether or not the connection succeeded.
     */
    method Connect(reply: ConnectReply) returns (ok: bool, message: string)
      modifies this
      ensures hasClient
      ensures ok <==> reply.Connected?
      ensures reply.Connected? ==> cwd == targetPath && message == "Connected successfully"
      ensures reply.ConnectFailed? ==> cwd == startPath && message == ConnectFailureMessage(reply.error, reply.directories)
    {
      hasClient := true;
      cwd := startPath;
      match reply
      case Connected =>
        cwd := targetPath;
        ok, message := true, "Connected successfully";
      case ConnectFailed(error, directories) =>
        ok, message := false, ConnectFailureMessage(error, directories);
    }

    /** `disconnect`: ends the session; the client object is kept, so `hasClient` stays as it was. */
    method Disconnect()
    {
    }

    /** One `cwd(name)` command. */
    method ChangeDirectory(name: string, reply: CwdReply) returns (ok: bool)
      modifies this`cwd
      ensures ok <==> reply.Accepted?
      ensures cwd == if ok then ChangeDir(old(cwd), name) else old(cwd)
    {
      ok := reply.Accepted?;
      if ok {
        cwd := ChangeDir(cwd, name);
      }
    }

    /**
     * `find_latest_date_folder`: lists the current directory and answers the newest
     * dated folder. Only a permission error of the listing is caught; any other
     * exception escapes.
     */
    method FindLatestDateFolder(listing: ListReply) returns (r: Outcome<FolderAnswer>)
      ensures !hasClient ==> r == Returned(FolderAnswer(None, "Not connected"))
      ensures hasClient && listing.PermissionError? ==> r == Returned(FolderAnswer(None, listing.error))
      ensures hasClient && listing.OtherError? ==> r == Raised(listing.error)
      ensures hasClient && listing.Names? ==>
        && r.Returned?
        && (r.value.folder.None? <==> forall x :: x in listing.names ==> FolderDate(x).None?)
      ensures hasClient && listing.Names? && r.value.folder.None? ==> r.value.message == "No date folders found"
      ensures r.Returned? && r.value.folder.Some? ==>
        && hasClient && listing.Names?
        && IsLatestDateFolder(listing.names, r.value.folder.value)
        && r.value.message == "Found latest date folder"
    {
      if !hasClient {
        return Returned(FolderAnswer(None, "Not connected"));
      }
      match listing {
        case PermissionError(error) =>
          return Returned(FolderAnswer(None, error));
        case OtherError(error) =>
          return Raised(error);
        case Names(_) =>
      }
      var items := listing.names;

      var matched: seq<Dated> := [];
      for i := 0 to |items|
        invariant matched == DatedEntries(items[..i])
      {
        var item := items[i];
        assert items[..i + 1][..i] == items[..i];
        if MatchesDatePattern(item) {
          assert |item| == 10 ==> item[..10] == item;
          var parsed := ParseIsoDate(item[..10]);
          if parsed.Some? {
            matched := matched + [Dated(parsed.value, item)];
          }
        }
      }
      assert items[..|items|] == items;

      if matched == [] {
        DatedEntriesComplete(items);
        return Returned(FolderAnswer(None, "No date folders found"));
      }
      var sorted := SortNewestFirst(matched);
      SortedHeadIsLatest(items);
      r := Returned(FolderAnswer(Some(sorted[0].name), "Found latest date folder"));
    }

    /**
     * `get_files_in_folder`: goes into `folder`, lists it, picks the last PDF and the
     * last PNG, and goes back up. Any failure is caught, reported with its text, and
     * followed by one more attempt to go up.
     */
    method GetFilesInFolder(folder: string, enter: CwdReply, listing: ListReply, leave: CwdReply, retryLeave: CwdReply)
      returns (r: FilesAnswer)
      modifies this`cwd
      ensures !hasClient ==> r == FilesAnswer(None, None, "Not connected") && cwd == old(cwd)
      ensures hasClient && enter.Accepted? && listing.Names? && leave.Accepted? ==>
        r == FilesFound(listing.names) && cwd == ChangeDir(ChangeDir(old(cwd), folder), "..")
      ensures hasClient && !(enter.Accepted? && listing.Names? && leave.Accepted?) ==>
        && r == FilesAnswer(None, None, FirstFailure(enter, listing, leave))
        && var failedIn := if enter.Accepted? then ChangeDir(old(cwd), folder) else old(cwd);
           cwd == if retryLeave.Accepted? then ChangeDir(failedIn, "..") else failedIn
      // The directory is restored after a visit that went through, or that failed inside the folder and went up on the retry.
      ensures hasClient && IsSubfolderName(folder) && enter.Accepted? && listing.Names? && leave.Accepted? ==> cwd == old(cwd)
      ensures hasClient && IsSubfolderName(folder) && enter.Accepted? && !(listing.Names? && leave.Accepted?) && retryLeave.Accepted? ==>
        cwd == old(cwd)
      // A folder that could not be entered leaves the session in the parent directory once the retry is accepted.
      ensures hasClient && enter.Rejected? && retryLeave.Accepted? ==> cwd == Parent(old(cwd))
    {
      if !hasClient {
        return FilesAnswer(None, None, "Not connected");
      }
      var failure: Option<string> := None;
      var entered := ChangeDirectory(folder, enter);
      if !entered {
        failure := Some(enter.error);
      } else if !listing.Names? {
        failure := Some(listing.error);
      } else {
        var files := listing.names;
        var pdf: Option<string> := None;
        var png: Option<string> := None;
        ghost var inside := cwd;
        for i := 0 to |files|
          invariant cwd == inside
          invariant pdf == LastWithSuffix(files[..i], PdfSuffix)
          invariant png == LastWithSuffix(files[..i], PngSuffix)
        {
          var name := files[i];
          assert files[..i + 1][..i] == files[..i];
          if EndsWithIgnoringCase(name, PdfSuffix) {
            PdfIsNotPng(name);
            pdf := Some(name);
          } else if EndsWithIgnoringCase(name, PngSuffix) {
            png := Some(name);
          }
        }
        assert files[..|files|] == files;
        var left := ChangeDirectory("..", leave);
        if !left {
          failure := Some(leave.error);
        } else if pdf.None? {
          return FilesAnswer(None, None, "No PDF file found in folder");
        } else if png.None? {
          return FilesAnswer(pdf, None, "No PNG file found (PDF only)");
        } else {
          return FilesAnswer(pdf, png, "Found files");
        }
      }
      var _ := ChangeDirectory("..", retryLeave);
      r := FilesAnswer(None, None, failure.value);
    }

    /** The not-connected guard and the outcome of `download_file`; the bytes themselves are not modelled. */
    method DownloadFile(filename: string, localPath: string, transfer: TransferReply) returns (ok: bool, message: string)
      ensures !hasClient ==> !ok && message == "Not connected"
      ensures hasClient ==> (ok <==> transfer.Transferred?)
      ensures hasClient && ok ==> message == "Download successful"
      ensures hasClient && !ok ==> message == transfer.error
    {
      if !hasClient {
        return false, "Not connected";
      }
      match transfer
      case Transferred =>
        ok, message := true, "Download successful";
      case TransferFailed(error) =>
        ok, message := false, error;
    }
  }
}
