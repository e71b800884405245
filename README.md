# FTPManager listing logic, modelled in Dafny

This project models the part of the automail pipeline that decides what to fetch from the
FTP server, the class `FTPManager` in `ftp_manager.py`:

- **The date-folder locator** (`find_latest_date_folder`). It lists the current remote
  directory and keeps the names that fully match `^(\d{4})-(\d{2})-(\d{2})$`. A name whose
  groups are not a real date under `strptime("%Y-%m-%d")` is skipped: month 13,
  30 February, 29 February of a common year, and year 0000 are all skipped. The locator
  sorts the survivors newest first and answers the first one.
- **The folder-content picker** (`get_files_in_folder`). It goes into a folder and lists it.
  It keeps the last name ending in `.pdf` and the last ending in `.png`, ignoring case.
  Then it goes back up and reports both files, the PDF alone, or a failure.
- **The not-connected guards** of these two and of `download_file`.
- **`connect` and `disconnect`**, as changes to the abstract state only.

The FTP session is abstract state. `FtpManager.hasClient` stands for `self.ftp is not None`.
`FtpManager.cwd` is the remote working directory, as the path of folder names that leads to
it from the server's root directory. A session starts in `FtpManager.startPath`, the
directory the server puts the user in at login; it and `FtpManager.targetPath`, where
`cwd(target_dir)` leads from there, are constructor parameters because only the server
knows them. An accepted `cwd(name)` goes into `name`,
`cwd('')` (which ftplib sends as `CWD .`) and `cwd('.')` stay where they are, and an
accepted `cwd('..')` goes up one level; going up from the root stays at the root.
Each method takes as parameters the server's replies to the commands it sends:
the listing, or the error the listing call raises; whether each `cwd` is accepted; the
outcome of connect and of a transfer. An exception that escapes a method is the
`Outcome.Raised` result.

Modules: `Wrappers` (Option, Outcome), `Dates` (Gregorian dates and their order),
`DateNames` (the name pattern and `strptime`), `Locator` (the filter, the stable newest-first
sort, and the meaning of "latest"), `FilePicker` (suffix matching), and `Ftp` (the replies,
the answers and the class `FtpManager`).

Behaviour of the code worth knowing, all of it modelled:
- The picker keeps the last `.pdf` and the last `.png` of the listing.
- If `cwd(folder)` itself fails, the `cwd('..')` in the exception handler still runs, so the
  session ends one level above the directory it started in (or at the root, if it started
  there).
- `connect` assigns `self.ftp` before it connects, so after a failed connect the manager
  still holds a client and the not-connected guards let later calls through. `disconnect`
  never resets `self.ftp`.
- Python's `$` also matches before one final newline, so `"2024-01-02\n"` is accepted as
  the folder of 2 January 2024, and the answer is that name with the newline.

## Model

| member | source | states |
|---|---|---|
| `Dates.DaysInMonth` | ftp_manager.py:59 | the month lengths `datetime` accepts: 28 days exactly in February of a common year, 29 exactly in February of a leap year, 31 exactly in the seven long months, and so 30 in the other four |
| `Dates.LeapDay` | ftp_manager.py:59-62 | 29 February is a valid date exactly in the leap years between 1 and 9999 |
| `Dates.NotAfterIsTotalOrder` | ftp_manager.py:68 | the date order used as the sort key is reflexive, antisymmetric, transitive and total, and `Before` is its strict part |
| `DateNames.DigitsRoundTrip` | ftp_manager.py:58-59 | writing a number of at most `width` digits zero-padded and reading it back gives the number |
| `DateNames.DecimalValueRoundTrip` | ftp_manager.py:58-59 | reading a run of digits and writing the number back at the same width gives the same text |
| `DateNames.MatchedNameShape` | ftp_manager.py:51-55 | a name matching `^(\d{4})-(\d{2})-(\d{2})$` (`MatchesDatePattern`) is a ten-character date shape, alone or followed by the single newline `$` admits |
| `DateNames.ParseIsoDate` | ftp_manager.py:58-59 | `strptime` on the three matched groups succeeds exactly when the year, month and day they spell form a valid date, and the result is then valid |
| `DateNames.ParseIsoDateGivesSpelledDate` | ftp_manager.py:58-59 | the date `strptime` gives is the one the text spells: written back as `YYYY-MM-DD` it is the text itself |
| `DateNames.FolderDate` | ftp_manager.py:51-62 | a listing entry gets a date only if it matches the full pattern, and the date is then a valid calendar date |
| `DateNames.FormatThenParse` | ftp_manager.py:51-59 | every valid date, written `YYYY-MM-DD`, is accepted and read back as the same date |
| `DateNames.ParseThenFormat` | ftp_manager.py:51-60 | every accepted entry is the canonical `YYYY-MM-DD` name of its date, possibly followed by the one newline `$` admits; an entry that is not exactly ten pattern characters is that name plus the newline |
| `DateNames.FormatWithNewlineThenParse` | ftp_manager.py:51-59 | every valid date's `YYYY-MM-DD` name followed by one newline is accepted too, and read back as the same date |
| `DateNames.FolderDateOfShape` | ftp_manager.py:55-59 | for a name of the pattern's shape, the date is read from the digits at positions 0-3, 5-6 and 8-9, and the entry is skipped when they are not a valid date |
| `DateNames.NonexistentDaysSkipped` | ftp_manager.py:55-62 | `2024-13-01` and `2024-02-30` match the digit pattern but are skipped |
| `DateNames.YearDependentSkips` | ftp_manager.py:57-62 | `0000-01-01` (year 0) and `2023-02-29` (a common year) are skipped |
| `DateNames.LeapDayKept` | ftp_manager.py:57-60 | `2024-02-29` is kept with its date |
| `DateNames.TrailingNewlineKept` | ftp_manager.py:51-60 | `2024-01-02` followed by a newline is kept, with the date 2 January 2024 |
| `Locator.DatedEntries` | ftp_manager.py:52-60 | `matched_folders` after the loop: the dated entries of the listing with their dates, in listing order, never more than the listing holds (its meaning is stated by the next three lemmas) |
| `Locator.DatedEntriesSound` | ftp_manager.py:52-60 | every collected entry is a listing entry, paired with the date its name denotes |
| `Locator.DatedEntriesComplete` | ftp_manager.py:54-60 | every listing entry that has a date is collected |
| `Locator.DatedEntriesPrefix` | ftp_manager.py:54-60 | collection preserves listing order: the entries collected from a prefix of the listing are a prefix of those from the whole listing |
| `Locator.SortNewestFirst` | ftp_manager.py:68 | `sort(key=date, reverse=True)` as a stable insertion sort of the same length (its order, permutation and head are stated by the lemmas below) |
| `Locator.InsertPermutes` | ftp_manager.py:68 | inserting an entry into the sorted list adds exactly that entry |
| `Locator.InsertKeepsOrder` | ftp_manager.py:68 | inserting into a newest-first list keeps it newest first |
| `Locator.SortNewestFirstCorrect` | ftp_manager.py:68 | the sort returns a permutation of the collected entries, ordered newest first |
| `Locator.SortHeadIsFirstNewest` | ftp_manager.py:68-69 | the first entry after the stable descending sort is a newest entry, and every collected entry before it is strictly older |
| `Locator.SortedHeadIsLatest` | ftp_manager.py:64-71 | the name taken from the head of the sorted list is a dated listing entry, no dated entry is newer, and no entry before its first occurrence has the same date |
| `Locator.SameDateCollectedLater` | ftp_manager.py:54-69 | an entry with the chosen date is collected at or after the chosen position, so ties go to the earlier listing entry |
| `Locator.LatestIsUnique` | ftp_manager.py:67-69 | the latest dated folder of a listing is unique, so the locator's answer depends only on the listing |
| `Locator.TwoDayDates` | ftp_manager.py:51-62 | `2024-01-01` and `2024-01-02` are dated folders and `readme.txt` is skipped |
| `Locator.TwoDayListing` | ftp_manager.py:67-69 | for `["2024-01-01", "2024-01-02", "readme.txt"]` the answer is `2024-01-02` and nothing else |
| `FilePicker.Lower` | ftp_manager.py:88 | `lower()` on ASCII: the result has the same length and no capital letter, every non-capital is kept, and every capital becomes its small letter |
| `FilePicker.LowerChar` | ftp_manager.py:88 | lowering one character leaves no capital, keeps a non-capital, and maps a capital to its small letter |
| `FilePicker.LowerIgnoresCase` | ftp_manager.py:88 | names that differ only in the case of ASCII letters are lowered to the same text |
| `FilePicker.SuffixTestIgnoresCase` | ftp_manager.py:88-90 | such names get the same answer from the `.pdf` and `.png` suffix tests |
| `FilePicker.PdfIsNotPng` | ftp_manager.py:88-91 | no name is both a PDF and a PNG, so the `elif` never hides a PNG |
| `FilePicker.UpperCaseSuffix` | ftp_manager.py:88-90 | the suffix test ignores case: `REPORT.PDF` is a PDF and `Chart.Png` a PNG |
| `FilePicker.LastWithSuffix` | ftp_manager.py:84-91 | the value `pdf_file` or `png_file` holds after the loop: when a name is chosen, it is a listing entry with the suffix (the last such, by the next lemma) |
| `FilePicker.LastWithSuffixIsLastMatch` | ftp_manager.py:84-91 | a file is found exactly when some entry has the suffix, and the file found is an entry with the suffix that no later entry with the suffix follows |
| `Ftp.Parent` | ftp_manager.py:94 | going up drops the last level: the result is a prefix of the path, one element shorter, and at the root it stays at the root |
| `Ftp.ChangeDir` | ftp_manager.py:80 | an accepted `cwd(name)` appends a folder name to the path, goes up for `..`, and stays put for `''` and `.` |
| `Ftp.EnterThenLeave` | ftp_manager.py:80-94 | going into a folder (a name other than `''`, `.` and `..`) and then to `..` returns to the starting directory |
| `Ftp.Contains` | ftp_manager.py:24 | the substring test `"550" in error_msg`; a text found is never longer than the text searched (the next lemma gives its meaning) |
| `Ftp.ContainsAt` | ftp_manager.py:24 | the substring test `"550" in error_msg` holds exactly when the text occurs at some position |
| `Ftp.ConnectFailureMessage` | ftp_manager.py:22-31 | a failed connect reports the exception text, extended with the directory listing exactly when the text contains "550" and that listing succeeded |
| `Ftp.FilesFound` | ftp_manager.py:96-101 | the answer once the folder is listed: a PNG is reported only beside a PDF, and each reported file is a listing entry with its suffix |
| `Ftp.FilesFoundWithoutPdf` | ftp_manager.py:84-97 | a PDF is reported exactly when the folder holds one; without a PDF nothing is reported, even if a PNG is there, with "No PDF file found in folder" |
| `Ftp.FilesFoundWithPdf` | ftp_manager.py:84-101 | with a PDF the answer is the last PDF and the last PNG; the PNG is absent exactly when no entry is a PNG, and the message is then "No PNG file found (PDF only)", otherwise "Found files" |
| `Ftp.FirstFailure` | ftp_manager.py:78-108 | the text reported by the exception handler is that of the first failing command: `cwd(folder)`, then `nlst()`, then `cwd('..')` |
| `Ftp.FtpManager.constructor` | ftp_manager.py:7-13 | stores the connection parameters, with the login and target directories, and holds no client |
| `Ftp.FtpManager.Connect` | ftp_manager.py:15-31 | the manager holds a client afterwards in every case; it succeeds exactly on the accepted reply, and then it is in the target directory; a failure reports the connect failure message and leaves the session in its login directory |
| `Ftp.FtpManager.ChangeDirectory` | ftp_manager.py:80 | an accepted `cwd` moves the working directory as `ChangeDir` says, and a rejected one leaves it unchanged |
| `Ftp.FtpManager.FindLatestDateFolder` | ftp_manager.py:40-71 | "Not connected" without a client; the permission error's text with no folder; any other listing error escapes; with a listing, no folder and "No date folders found" exactly when no entry has a date, otherwise the latest dated folder with "Found latest date folder" |
| `Ftp.FtpManager.GetFilesInFolder` | ftp_manager.py:73-108 | "Not connected", with the directory unchanged, without a client; on the normal path the files found in the listing, and the directory is where `cwd(folder)` then `cwd('..')` lead, which is the starting directory when `folder` is a folder name; on a failure no files and the first failing command's text, then one more attempt to go up; a folder that could not be entered leaves the session in the parent of the starting directory once that attempt is accepted |
| `Ftp.FtpManager.DownloadFile` | ftp_manager.py:110-119 | "Not connected" without a client; otherwise success exactly when the transfer completes, with "Download successful" or the transfer's error text |

## Left out

- Network and byte transfer: the socket connection, login, `retrbinary` and `quit`/`close`
  are not modelled. Their effect comes in as a reply parameter of each method.
- `Ftp.FtpManager.Disconnect`: has no effect on the modelled state. The session ends on the
  server, but `self.ftp` is kept, so `hasClient` does not change.
- `Ftp.FtpManager.Connect`: after a failed connect the working directory is set to the
  login directory `startPath`, even when the failure came before the login, because the
  server state after a refused connect is not visible to the code. The client object's own creation is taken never to fail.
- `Ftp.ConnectFailureMessage`: the directory listing appended after a "550" error is an
  opaque string standing for `str(current_dirs)`. Python's list rendering is not modelled.
- Exception texts (`str(e)`, `str(resp)`) are opaque strings supplied with the reply.
- Python's `\d` also matches non-ASCII decimal digits, and `lower()` lowers non-ASCII letters.
  The model takes names to use ASCII digits and lowers only ASCII letters.
- `Locator.SortNewestFirstCorrect`: states the order and the permutation. Stability is
  proved only for the first entry (`Locator.SortHeadIsFirstNewest`), which is the only
  entry the code uses.
- A `cwd` argument is a single folder name, `''`, `.` or `..`. Names holding `/` are not
  resolved the way a server would resolve them: they are taken as one folder name.
- `app.py` (the web routes, the schedule thread, the configuration and log files, the
  running flag, the clean-up of downloaded files) is not part of this model.
- `email_manager.py` is not part of this model: it is a wrapper over Python's MIME and SMTP
  libraries. `static/script.js` is not part of this model either: it is browser UI code.
