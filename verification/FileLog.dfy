/**
 dlog/filelog.go: the writer loop of the file log and its rotation, over an abstract disk.

 A file is a sequence of lines: records, headers and trailers, and what is left of a line whose writing failed.
 `Lstat` errs exactly when a file is missing, nobody else touches the disk, and renaming, opening or writing may fail
 at any time. Dates come in as they are formatted.
 */
module FileLog {
  import opened Wrappers
  import opened Decimal

  datatype Line = Record(text: string) | Head(text: string) | Foot(text: string) | Torn(text: string)

  type Files = map<string, seq<Line>>

  /** The day of the month, the hour, and the three formatted times the rotation may put in a name. */
  datatype Instant = Instant(day: int, hour: int, yesterday: string, lastHour: string, thisHour: string)

  function Records(lines: seq<Line>): seq<string> {
    if lines == [] then []
    else if lines[0].Record? then [lines[0].text] + Records(lines[1..])
    else Records(lines[1..])
  }

  function Size(texts: seq<string>): nat {
    if texts == [] then 0 else Size(texts[..|texts| - 1]) + |texts[|texts| - 1]|
  }

  lemma {:induction false} RecordsAppend(a: seq<Line>, b: seq<Line>)
    ensures Records(a + b) == Records(a) + Records(b)
  {
    if a == [] {
      assert a + b == b;
    } else {
      assert (a + b)[1..] == a[1..] + b;
      RecordsAppend(a[1..], b);
    }
  }

  function Lines(files: Files, name: string): seq<Line> {
    if name in files then files[name] else []
  }

  /** Every record in the named files, in the order of the names. */
  function Kept(files: Files, names: seq<string>): seq<string> {
    if names == [] then []
    else Kept(files, names[..|names| - 1]) + Records(Lines(files, names[|names| - 1]))
  }

  lemma {:induction false} KeptSame(files: Files, files': Files, names: seq<string>)
    requires forall n <- names :: Lines(files, n) == Lines(files', n)
    ensures Kept(files, names) == Kept(files', names)
  {
    if names != [] {
      KeptSame(files, files', names[..|names| - 1]);
    }
  }

  // ----- names

  function Pad3(num: nat): string
    requires num <= 999
  {
    [Digit(num / 10 / 10), Digit(num / 10 % 10), Digit(num % 10)]
  }

  /** Three digits that spell the number. */
  lemma PadSpells(num: nat)
    requires num <= 999
    ensures |Pad3(num)| == 3 && IsNumeral(Pad3(num)) && Numeral(Pad3(num)) == num
  {
    var s := Pad3(num);
    assert s[..2] == [Digit(num / 10 / 10), Digit(num / 10 % 10)];
    assert s[..2][..1] == [Digit(num / 10 / 10)];
    assert s[..2][..1][..0] == [];
    assert Numeral(s[..2][..1]) == num / 10 / 10;
    assert Numeral(s[..2]) == num / 10;
  }

  lemma PadsDiffer(i: nat, j: nat)
    requires i <= 999 && j <= 999 && Pad3(i) == Pad3(j)
    ensures i == j
  {
    DigitIsOwn(i / 10 / 10, j / 10 / 10);
    DigitIsOwn(i / 10 % 10, j / 10 % 10);
    DigitIsOwn(i % 10, j % 10);
  }

  /** The names a rotation tries: with `bare`, number 0 is the dated name without a number. */
  function Candidate(dated: string, bare: bool, num: nat): (name: string)
    requires num <= 999
    ensures bare && num == 0 ==> name == dated
    ensures !bare || num > 0 ==>
              dated + "." <= name && |name| == |dated| + 4 && Numeral(name[|dated| + 1..]) == num && IsNumeral(name[|dated| + 1..])
  {
    PadSpells(num);
    assert (dated + "." + Pad3(num))[|dated| + 1..] == Pad3(num);
    if bare && num == 0 then dated else dated + "." + Pad3(num)
  }

  /** Different numbers give different names, so a rotation has a thousand names to try. */
  lemma CandidatesDiffer(dated: string, bare: bool, i: nat, j: nat)
    requires i <= 999 && j <= 999 && i != j
    ensures Candidate(dated, bare, i) != Candidate(dated, bare, j)
  {
    if !(bare && i == 0) && !(bare && j == 0) {
      var a, b := Candidate(dated, bare, i), Candidate(dated, bare, j);
      var n := |dated| + 1;
      assert a[n..] == Pad3(i) && b[n..] == Pad3(j);
      if Pad3(i) == Pad3(j) {
        PadsDiffer(i, j);
      }
    }
  }

  /** The first of the names a rotation tries that is not taken. */
  ghost predicate FirstFree(dated: string, bare: bool, taken: set<string>, name: string) {
    name !in taken
    && exists at: nat :: at <= 999 && name == Candidate(dated, bare, at) && forall k :: 0 <= k < at ==> Candidate(dated, bare, k) in taken
  }

  ghost predicate AllTaken(dated: string, bare: bool, taken: set<string>) {
    forall k :: 0 <= k <= 999 ==> Candidate(dated, bare, k) in taken
  }

  // ----- the disk

  /** `faults` counts the writes that failed. */
  class Disk {
    var files: Files
    var faults: nat

    constructor (files: Files)
      ensures this.files == files && faults == 0
    {
      this.files, faults := files, 0;
    }

    predicate Exists(name: string)
      reads this
    {
      name in files
    }

    method Rename(name: string, target: string) returns (ok: bool)
      requires name in files && target !in files
      modifies `files
      ensures files == if ok then (old(files) - {name})[target := old(files)[name]] else old(files)
    {
      ok := *;
      if ok {
        files := (files - {name})[target := files[name]];
      }
    }

    /** Create if missing, then open for appending. */
    method Open(name: string) returns (ok: bool)
      modifies `files
      ensures files == if name in old(files) || !ok then old(files) else old(files)[name := []]
    {
      ok := *;
      if ok && name !in files {
        files := files[name := []];
      }
    }

    /** A write that fails leaves nothing, or a torn line, behind. */
    method Append(name: string, line: Line) returns (ok: bool, ghost landed: seq<Line>)
      requires name in files
      modifies this
      ensures files == old(files)[name := old(files)[name] + landed]
      ensures ok ==> landed == [line]
      ensures !ok ==> landed == [] || exists n :: 0 < n < |line.text| && landed == [Torn(line.text[..n])]
      ensures faults == old(faults) + if ok then 0 else 1
    {
      ok, landed := *, [line];
      var n: nat := *;
      faults := faults + if ok then 0 else 1;
      if ok {
        files := files[name := files[name] + [line]];
      } else if 0 < n < |line.text| {
        landed := [Torn(line.text[..n])];
        files := files[name := files[name] + [Torn(line.text[..n])]];
      } else {
        landed := [];
        assert files[name] + [] == files[name];
      }
    }
  }

  datatype Error = NoFreeNumber | RenameFailed | OpenFailed | WriteFailed

  // ----- what the rotations keep

  /**
   `archives` are the files this writer has renamed, oldest first; `before` is the disk it started on. Nothing
   else on that disk has changed, and the archives followed by the current file hold every record exactly once.
   */
  ghost predicate Conserved(before: Files, files: Files, filename: string, archives: seq<string>, written: seq<string>) {
    && (forall i, j :: 0 <= i < j < |archives| ==> archives[i] != archives[j])
    && (forall a <- archives :: a in files && a !in before && a != filename)
    && (forall f <- before.Keys :: f != filename ==> f in files && files[f] == before[f])
    && (forall f <- files.Keys :: f in before || f == filename || f in archives)
    && Kept(files, archives) + Records(Lines(files, filename)) == Records(Lines(before, filename)) + written
  }

  lemma Regroup<T>(a: seq<T>, b: seq<T>, c: seq<T>)
    ensures (a + b) + c == a + (b + c)
  {
  }

  lemma AppendText(files: Files, filename: string, archives: seq<string>, lines: seq<Line>)
    requires filename in files && forall a <- archives :: a != filename
    ensures var files' := files[filename := files[filename] + lines];
            Kept(files', archives) + Records(Lines(files', filename))
            == (Kept(files, archives) + Records(Lines(files, filename))) + Records(lines)
  {
    KeptSame(files, files[filename := files[filename] + lines], archives);
    RecordsAppend(files[filename], lines);
    Regroup(Kept(files, archives), Records(files[filename]), Records(lines));
  }

  lemma AppendConserves(before: Files, files: Files, filename: string, archives: seq<string>, written: seq<string>,
                        lines: seq<Line>)
    requires Conserved(before, files, filename, archives, written) && filename in files
    ensures Conserved(before, files[filename := files[filename] + lines], filename, archives, written + Records(lines))
  {
    hide Records, Kept, Lines;
    AppendText(files, filename, archives, lines);
    Regroup(Records(Lines(before, filename)), written, Records(lines));
  }

  lemma RenameText(files: Files, filename: string, archives: seq<string>, target: string)
    requires filename in files && target !in files && target != filename
    requires forall a <- archives :: a != filename && a != target
    ensures var files' := (files - {filename})[target := files[filename]];
            Kept(files', archives + [target]) + Records(Lines(files', filename))
            == Kept(files, archives) + Records(Lines(files, filename))
  {
    var files' := (files - {filename})[target := files[filename]];
    assert Records([]) == [];
    KeptSame(files, files', archives);
    assert (archives + [target])[..|archives|] == archives;
    hide Records;
    assert Kept(files', archives + [target]) == Kept(files, archives) + Records(files[filename]);
  }

  /** Renaming keeps the archives and the current file an exact record of everything written. */
  lemma RenameConserves(before: Files, files: Files, filename: string, archives: seq<string>, written: seq<string>,
                        target: string)
    requires Conserved(before, files, filename, archives, written) && filename in files && target !in files && target != filename
    ensures Conserved(before, (files - {filename})[target := files[filename]], filename, archives + [target], written)
  {
    hide Records, Kept, Lines;
    RenameText(files, filename, archives, target);
  }

  lemma OpenConserves(before: Files, files: Files, filename: string, archives: seq<string>, written: seq<string>)
    requires Conserved(before, files, filename, archives, written) && filename !in files
    ensures Conserved(before, files[filename := []], filename, archives, written)
  {
    KeptSame(files, files[filename := []], archives);
  }

  /** A file this writer filled: at most `maxLines` records, and short of `maxsize` but for the last one. */
  ghost predicate Bounded(lines: seq<Line>, maxLines: int, maxsize: int) {
    var r := Records(lines);
    && (maxLines > 0 ==> |r| <= maxLines)
    && (maxsize > 0 && r != [] ==> Size(r[..|r| - 1]) < maxsize)
  }

  datatype Config = Config(filename: string, rotate: bool, daily: bool, hourly: bool, maxLines: int, maxsize: int,
                           header: string, trailer: string)

  /** `found` counts the archives, at most the oldest, that are a file found on the disk at the start. */
  ghost predicate Intact(c: Config, before: Files, files: Files, archives: seq<string>, found: nat, written: seq<string>) {
    && Conserved(before, files, c.filename, archives, written)
    && found <= |archives| && found <= 1
    && (found == 1 ==> c.filename in before && Lines(files, archives[0]) == before[c.filename])
    && (c.rotate ==> forall i :: found <= i < |archives| ==> Bounded(Lines(files, archives[i]), c.maxLines, c.maxsize))
  }

  /** The current file is open; when rotating, the counters say what it holds. */
  ghost predicate Current(c: Config, files: Files, lines: int, size: int) {
    && c.filename in files
    && (c.rotate ==>
          var r := Records(files[c.filename]);
          |r| == lines && Size(r) == size && Bounded(files[c.filename], c.maxLines, c.maxsize))
  }

  /** A header, a trailer or a torn line, or nothing at all. */
  lemma LineKeeps(c: Config, before: Files, files: Files, archives: seq<string>, found: nat, written: seq<string>,
                  lines: seq<Line>,
                  n: int, size: int)
    requires Intact(c, before, files, archives, found, written) && c.filename in files
    requires |lines| <= 1 && forall l <- lines :: !l.Record?
    ensures var files' := files[c.filename := files[c.filename] + lines];
            && Intact(c, before, files', archives, found, written)
            && (Current(c, files, n, size) ==> Current(c, files', n, size))
  {
    assert Records(lines) == [];
    AppendConserves(before, files, c.filename, archives, written, lines);
    RecordsAppend(files[c.filename], lines);
    assert Records(files[c.filename]) + [] == Records(files[c.filename]) && written + [] == written;
  }

  lemma RecordKeeps(c: Config, before: Files, files: Files, archives: seq<string>, found: nat, written: seq<string>, text: string,
                    n: int, size: int)
    requires Intact(c, before, files, archives, found, written) && Current(c, files, n, size)
    requires (c.maxLines > 0 ==> n < c.maxLines) && (c.maxsize > 0 ==> size < c.maxsize)
    ensures var files' := files[c.filename := files[c.filename] + [Record(text)]];
            && Intact(c, before, files', archives, found, written + [text])
            && Current(c, files', n + 1, size + |text|)
  {
    AppendConserves(before, files, c.filename, archives, written, [Record(text)]);
    RecordsAppend(files[c.filename], [Record(text)]);
    var r := Records(files[c.filename]);
    assert Records([Record(text)]) == [text];
    assert (r + [text])[..|r|] == r;
  }

  lemma RenameKeeps(c: Config, before: Files, files: Files, archives: seq<string>, found: nat, written: seq<string>,
                    open: bool, target: string)
    requires Intact(c, before, files, archives, found, written) && c.filename in files
    requires target !in files && target != c.filename
    requires if open then Bounded(files[c.filename], c.maxLines, c.maxsize) else archives == [] && files == before
    ensures Intact(c, before, (files - {c.filename})[target := files[c.filename]], archives + [target],
                   if open then found else 1, written)
  {
    RenameConserves(before, files, c.filename, archives, written, target);
  }

  lemma OpenKeeps(c: Config, before: Files, files: Files, archives: seq<string>, found: nat, written: seq<string>)
    requires Intact(c, before, files, archives, found, written) && c.filename !in files
    ensures Intact(c, before, files[c.filename := []], archives, found, written)
    ensures Current(c, files[c.filename := []], 0, 0)
  {
    OpenConserves(before, files, c.filename, archives, written);
  }

  lemma ApartFromFile(c: Config, before: Files, files: Files, archives: seq<string>, found: nat, written: seq<string>)
    requires Intact(c, before, files, archives, found, written)
    ensures forall a <- archives :: a != c.filename && a in files
  {
  }

  class FileLogWriter {
    const disk: Disk
    const c: Config
    var open: bool
    var maxLinesCurLines: int
    var maxsizeCurSize: int
    var dailyOpenDate: int
    var hourlyOpenHour: int
    ghost const before: Files
    ghost var archives: seq<string>
    ghost var found: nat
    ghost var written: seq<string>

    ghost predicate Valid()
      reads this, disk
    {
      Intact(c, before, disk.files, archives, found, written) && (!open && archives == [] ==> disk.files == before)
    }

    ghost predicate Ready()
      reads this, disk
    {
      Valid() && open && Current(c, disk.files, maxLinesCurLines, maxsizeCurSize)
    }

    constructor (disk: Disk, c: Config)
      ensures this.disk == disk && this.c == c && before == disk.files
      ensures Valid() && !open && archives == [] && written == []
    {
      this.disk, this.c := disk, c;
      open, maxLinesCurLines, maxsizeCurSize, dailyOpenDate, hourlyOpenHour := false, 0, 0, 0, 0;
      before, archives, found, written := disk.files, [], 0, [];
    }

    /** The search for the next available number. */
    method FreeName(dated: string, bare: bool) returns (fName: string, free: bool)
      ensures free ==> FirstFree(dated, bare, disk.files.Keys, fName)
      ensures !free ==> AllTaken(dated, bare, disk.files.Keys)
    {
      hide Candidate;
      var num := 0;
      ghost var at: nat := 0;
      free, fName := false, "";
      while !free && num <= 999
        invariant 0 <= num <= 1000 && at <= 999
        invariant free ==> fName == Candidate(dated, bare, at) && fName !in disk.files
        invariant forall k :: 0 <= k < (if free then at else num) ==> Candidate(dated, bare, k) in disk.files
        decreases 1000 - num
      {
        fName, at := Candidate(dated, bare, num), num;
        free := !disk.Exists(fName);
        num := num + 1;
      }
      assert free ==> FirstFree(dated, bare, disk.files.Keys, fName);
    }

    ghost predicate NewDay(now: Instant)
      reads this
    {
      c.daily && now.day != dailyOpenDate
    }

    ghost predicate NewHour(now: Instant)
      reads this
    {
      c.hourly && now.hour != hourlyOpenHour
    }

    /** Yesterday's date on a new day, else the last hour's on a new hour, else this hour's. */
    ghost function Dated(now: Instant): string
      reads this
    {
      c.filename + "." + if NewDay(now) then now.yesterday else if NewHour(now) then now.lastHour else now.thisHour
    }

    /** Which name a rotation at `now` would take, if one is free. */
    method NextName(now: Instant) returns (fName: string, free: bool)
      ensures free ==> fName != c.filename && FirstFree(Dated(now), NewDay(now) || NewHour(now), disk.files.Keys, fName)
      ensures !free ==> AllTaken(Dated(now), NewDay(now) || NewHour(now), disk.files.Keys)
    {
      if c.daily && now.day != dailyOpenDate {
        fName, free := FreeName(c.filename + "." + now.yesterday, true);
      } else if c.hourly && now.hour != hourlyOpenHour {
        fName, free := FreeName(c.filename + "." + now.lastHour, true);
      } else {
        fName, free := FreeName(c.filename + "." + now.thisHour, false);
      }
    }

    /** The old file moves to a name nothing on the disk had. */
    method Archive(now: Instant) returns (err: Option<Error>)
      requires Valid() && c.filename in disk.files
      requires if open then Bounded(disk.files[c.filename], c.maxLines, c.maxsize) else archives == []
      modifies `archives, `found, disk
      ensures Valid()
      ensures err.None? ==>
                && |archives| == |old(archives)| + 1 && archives[..|old(archives)|] == old(archives)
                && archives[|old(archives)|] !in old(disk.files) && c.filename !in disk.files
                && Lines(disk.files, archives[|old(archives)|]) == old(disk.files)[c.filename]
                && FirstFree(Dated(now), NewDay(now) || NewHour(now), old(disk.files.Keys), archives[|old(archives)|])
      ensures err == Some(NoFreeNumber) ==> AllTaken(Dated(now), NewDay(now) || NewHour(now), disk.files.Keys)
      ensures disk.faults == old(disk.faults)
      ensures err.Some? ==> archives == old(archives) && disk.files == old(disk.files)
    {
      hide Intact, Bounded, Records;
      var fName, free := NextName(now);
      if !free {
        return Some(NoFreeNumber);
      }
      RenameKeeps(c, before, disk.files, archives, found, written, open, fName);
      var ok := disk.Rename(c.filename, fName);
      if !ok {
        return Some(RenameFailed);
      }
      archives := archives + [fName];
      found := if open then found else 1;
      return None;
    }

    /** The file is opened, created if need be, and gets its header. */
    method Reopen(now: Instant) returns (err: Option<Error>)
      requires Valid() && (c.rotate ==> c.filename !in disk.files)
      modifies this, disk
      ensures Valid() && written == old(written) && archives == old(archives)
      ensures err.None? ==> Ready() && maxLinesCurLines == 0 && maxsizeCurSize == 0
      ensures err.None? ==> dailyOpenDate == now.day && hourlyOpenHour == now.hour
      ensures err.Some? ==> dailyOpenDate == old(dailyOpenDate) && hourlyOpenHour == old(hourlyOpenHour)
      ensures disk.faults >= old(disk.faults)
      ensures err.None? && disk.faults == old(disk.faults)
              ==> disk.files[c.filename] == Lines(old(disk.files), c.filename) + [Head(c.header)]
      ensures err.None? ==> disk.files == old(disk.files)[c.filename := disk.files[c.filename]]
    {
      hide Intact, Bounded, Records;
      if c.filename !in disk.files {
        OpenKeeps(c, before, disk.files, archives, found, written);
      }
      var ok := disk.Open(c.filename);
      if !ok {
        return Some(OpenFailed);
      }
      open, dailyOpenDate, hourlyOpenHour := true, now.day, now.hour;
      ghost var files := disk.files;
      var _, landed := disk.Append(c.filename, Head(c.header));
      LineKeeps(c, before, files, archives, found, written, landed, 0, 0);
      maxLinesCurLines, maxsizeCurSize := 0, 0;
      return None;
    }

    /** What closing the file adds to it. */
    ghost function Closing(): seq<Line>
      reads this
    {
      if open then [Foot(c.trailer)] else []
    }

    /** The trailer is written, if the file is open. */
    method CloseFile()
      requires if open then Ready() else Valid() && archives == []
      modifies disk
      ensures if open then Ready() else Valid()
      ensures disk.files.Keys == old(disk.files.Keys) && disk.faults >= old(disk.faults)
      ensures disk.faults == old(disk.faults) ==> Lines(disk.files, c.filename) == Lines(old(disk.files), c.filename) + Closing()
    {
      hide Intact, Bounded, Records;
      if open {
        ghost var files := disk.files;
        var _, landed := disk.Append(c.filename, Foot(c.trailer));
        LineKeeps(c, before, files, archives, found, written, landed, maxLinesCurLines, maxsizeCurSize);
      }
    }

    /** The archive just made is the file as it was, closed, and the file is new; or the same file goes on. */
    ghost predicate Reopened(was: Files, closing: seq<Line>, rotated: bool)
      reads this, disk
      requires rotated ==> archives != []
    {
      if rotated then
        Lines(disk.files, archives[|archives| - 1]) == Lines(was, c.filename) + closing
        && Lines(disk.files, c.filename) == [Head(c.header)]
      else Lines(disk.files, c.filename) == Lines(was, c.filename) + closing + [Head(c.header)]
    }

    /**
     Every archive made here gets a name that did not exist, so no record is ever overwritten; on an error
     the records are still all on the disk.
     */
    method IntRotateTime(now: Instant) returns (err: Option<Error>)
      requires if open then Ready() else Valid() && archives == []
      modifies this, disk
      ensures Valid() && written == old(written)
      ensures err.None? ==> Ready() && maxLinesCurLines == 0 && maxsizeCurSize == 0
      ensures err.None? ==> dailyOpenDate == now.day && hourlyOpenHour == now.hour
      ensures |archives| == |old(archives)| + if |archives| != |old(archives)| then 1 else 0
      ensures archives[..|old(archives)|] == old(archives)
      ensures err.None? ==> (|archives| != |old(archives)| <==> c.rotate && c.filename in old(disk.files))
      ensures |archives| != |old(archives)| ==>
                var name := archives[|old(archives)|];
                c.rotate && old(FirstFree(Dated(now), NewDay(now) || NewHour(now), disk.files.Keys, name))
      ensures disk.faults >= old(disk.faults)
      ensures err.None? && disk.faults == old(disk.faults)
              ==> Reopened(old(disk.files), old(Closing()), |archives| != |old(archives)|)
    {
      hide Intact, Bounded, Records, FirstFree, AllTaken;
      CloseFile();
      if c.rotate && disk.Exists(c.filename) {
        err := Archive(now);
        if err.Some? {
          return;
        }
      }
      ApartFromFile(c, before, disk.files, archives, found, written);
      err := Reopen(now);
    }

    /** A limit is reached, or a new day or hour has begun that calls for a new file. */
    ghost predicate Due(created: Instant)
      reads this
    {
      || (c.maxLines > 0 && maxLinesCurLines >= c.maxLines) || (c.maxsize > 0 && maxsizeCurSize >= c.maxsize)
      || (c.daily && created.day != dailyOpenDate) || (c.hourly && created.hour != hourlyOpenHour)
    }

    /** The record is the last line of the file, which is new if the rotation was due and files are kept. */
    ghost predicate Landed(was: Files, text: string, due: bool)
      reads this, disk
    {
      var lines, line := Lines(disk.files, c.filename), [Record(text)];
      if !due then lines == Lines(was, c.filename) + line
      else if c.rotate then
        && lines == [Head(c.header)] + line && archives != []
        && Lines(disk.files, archives[|archives| - 1]) == Lines(was, c.filename) + [Foot(c.trailer)]
      else lines == Lines(was, c.filename) + [Foot(c.trailer), Head(c.header)] + line
    }

    /** One record taken from the channel. If it cannot be written whole, all earlier ones are still there. */
    method Write(created: Instant, text: string) returns (err: Option<Error>)
      requires Ready()
      modifies this, disk
      ensures Valid()
      ensures err.None? ==> Ready() && written == old(written) + [text]
      ensures err.Some? ==> written == old(written)
      ensures err.None? ==> (c.daily ==> dailyOpenDate == created.day) && (c.hourly ==> hourlyOpenHour == created.hour)
      ensures err.None? ==> maxLinesCurLines == (if old(Due(created)) then 1 else old(maxLinesCurLines) + 1)
      ensures err.None? ==> maxsizeCurSize == (if old(Due(created)) then |text| else old(maxsizeCurSize) + |text|)
      ensures |old(archives)| <= |archives| <= |old(archives)| + 1 && archives[..|old(archives)|] == old(archives)
      ensures !old(Due(created)) ==>
                archives == old(archives) && dailyOpenDate == old(dailyOpenDate) && hourlyOpenHour == old(hourlyOpenHour)
      ensures err.None? && old(Due(created)) ==>
                |archives| == |old(archives)| + (if c.rotate then 1 else 0) && dailyOpenDate == created.day && hourlyOpenHour == created.hour
      ensures |archives| > |old(archives)| ==>
                var name := archives[|old(archives)|];
                old(FirstFree(Dated(created), NewDay(created) || NewHour(created), disk.files.Keys, name))
      ensures err.None? && disk.faults == old(disk.faults) ==> Landed(old(disk.files), text, old(Due(created)))
    {
      hide Intact, Bounded, Records, FirstFree;
      if (c.maxLines > 0 && maxLinesCurLines >= c.maxLines)
         || (c.maxsize > 0 && maxsizeCurSize >= c.maxsize)
         || (c.daily && created.day != dailyOpenDate)
         || (c.hourly && created.hour != hourlyOpenHour) {
        err := IntRotateTime(created);
        if err.Some? {
          return;
        }
      }
      ApartFromFile(c, before, disk.files, archives, found, written);
      err := PutRecord(text);
    }

    /** The write itself, with the counts. */
    method PutRecord(text: string) returns (err: Option<Error>)
      requires Ready() && (c.maxLines > 0 ==> maxLinesCurLines < c.maxLines) && (c.maxsize > 0 ==> maxsizeCurSize < c.maxsize)
      modifies disk, `written, `maxLinesCurLines, `maxsizeCurSize
      ensures Valid()
      ensures err.Some? ==> written == old(written)
      ensures err.None? ==> Ready() && written == old(written) + [text]
      ensures err.None? ==> maxLinesCurLines == old(maxLinesCurLines) + 1 && maxsizeCurSize == old(maxsizeCurSize) + |text|
      ensures err.None? ==> disk.files == old(disk.files)[c.filename := old(disk.files)[c.filename] + [Record(text)]]
      ensures disk.faults >= old(disk.faults)
    {
      hide Intact, Bounded, Records;
      ghost var files := disk.files;
      var ok, landed := disk.Append(c.filename, Record(text));
      if !ok {
        LineKeeps(c, before, files, archives, found, written, landed, maxLinesCurLines, maxsizeCurSize);
        return Some(WriteFailed);
      }
      RecordKeeps(c, before, files, archives, found, written, text, maxLinesCurLines, maxsizeCurSize);
      written := written + [text];
      maxLinesCurLines, maxsizeCurSize := maxLinesCurLines + 1, maxsizeCurSize + |text|;
      return None;
    }
  }
}
