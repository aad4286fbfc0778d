/** The live variant's ingestion pipeline (layout.py): the per-file text
    decision of FakeAPIHandler, the directory walk of FileSystemEmitter
    and its deduplicating pass. The file system is an abstract tree. */
module LayoutIngestion {
  import opened Basics

  // ---------------------------------------------------------------------------
  // Files and FakeAPIHandler.read_file_content
  // ---------------------------------------------------------------------------

  /** What `os.path.getsize` reports for a file. */
  datatype Stat = Size(bytes: nat) | StatFails(statMessage: string)

  /** What opening and reading the file as UTF-8 gives. */
  datatype ReadOutcome = Text(text: string) | ReadFails(readMessage: string)

  /** A file as the walk sees it: its name, its size and its readable text. */
  datatype FileRecord = FileRecord(name: string, stat: Stat, read: ReadOutcome)

  /** A directory: its base name, its files and its sub-directories, in listing order. */
  datatype Dir = Dir(name: string, files: seq<FileRecord>, subdirs: seq<Dir>)

  /** The default `max_size` of read_file_content. */
  const MaxFileSize: nat := 10000

  const TooLargeNotice: string := "File too large to display (showing first 10000 bytes)...\n\n"

  const ReadErrorPrefix: string := "Error reading file: "

  const TextExtensions: set<string> := {
    ".txt", ".py", ".js", ".html", ".css", ".json", ".xml", ".yaml", ".yml",
    ".md", ".rst", ".ini", ".conf", ".sh", ".bat", ".ps1", ".java", ".cpp",
    ".c", ".h", ".hpp", ".cs", ".go", ".rb", ".php", ".pl", ".swift"
  }

  /** The index of the last `.` in `s`, if any. */
  function LastDot(s: string): (r: Option<nat>)
    ensures r.None? <==> '.' !in s
    ensures r.Some? ==> r.value < |s| && s[r.value] == '.' && '.' !in s[r.value + 1..]
  {
    if s == [] then None
    else if s[|s| - 1] == '.' then Some(|s| - 1)
    else
      var r := LastDot(s[..|s| - 1]);
      assert s == s[..|s| - 1] + [s[|s| - 1]];
      if r.Some? then
        assert s[r.value + 1..] == s[..|s| - 1][r.value + 1..] + [s[|s| - 1]];
        r
      else r
  }

  predicate AllDots(s: string)
  {
    forall k :: 0 <= k < |s| ==> s[k] == '.'
  }

  /** `os.path.splitext(name)[1]` for a base name: the text from the last dot,
      unless every character before that dot is itself a dot. */
  function Extension(name: string): (ext: string)
    ensures ext == "" || (ext[0] == '.' && '.' !in ext[1..])
    ensures ext != "" ==> |ext| <= |name| && name[|name| - |ext|..] == ext && !AllDots(name[..|name| - |ext|])
    ensures '.' !in name ==> ext == ""
  {
    var d := LastDot(name);
    if d.None? || AllDots(name[..d.value]) then "" else
      assert name[d.value..][1..] == name[d.value + 1..];
      name[d.value..]
  }

  /** ASCII lower case, which is what `str.lower` does on the extensions that matter. */
  function Lower(s: string): (r: string)
    ensures |r| == |s|
    ensures forall k :: 0 <= k < |s| ==> r[k] == LowerChar(s[k])
  {
    seq(|s|, k requires 0 <= k < |s| => LowerChar(s[k]))
  }

  function LowerChar(c: char): char
  {
    if 'A' <= c <= 'Z' then (c as int - 'A' as int + 'a' as int) as char else c
  }

  /** The first `n` characters of `s` (`f.read(n)`). */
  function Take(s: string, n: nat): (r: string)
    ensures |r| <= n && |r| <= |s| && r == s[..|r|]
    ensures |s| <= n ==> r == s
    ensures |s| > n ==> |r| == n
  {
    if |s| <= n then s else s[..n]
  }

  /** FakeAPIHandler.read_file_content: the text shown for a file, or None for a non-text file. */
  function ReadFileContent(f: FileRecord, maxSize: nat): (r: Option<string>)
    ensures r.None? <==> Lower(Extension(f.name)) !in TextExtensions
    ensures r.Some? && f.stat.StatFails? ==> r.value == ReadErrorPrefix + f.stat.statMessage
    ensures r.Some? && f.stat.Size? && f.stat.bytes > maxSize ==> r.value == TooLargeNotice
    ensures r.Some? && f.stat.Size? && f.stat.bytes <= maxSize && f.read.Text? ==>
              |r.value| <= maxSize && |r.value| <= |f.read.text| && r.value == f.read.text[..|r.value|] &&
              (|f.read.text| <= maxSize ==> r.value == f.read.text)
    ensures r.Some? && f.stat.Size? && f.stat.bytes <= maxSize && f.read.ReadFails? ==>
              r.value == ReadErrorPrefix + f.read.readMessage
  {
    if Lower(Extension(f.name)) in TextExtensions then
      match f.stat
      case StatFails(msg) => Some(ReadErrorPrefix + msg)
      case Size(n) =>
        if n > maxSize then Some(TooLargeNotice)
        else
          match f.read
          case Text(s) => Some(Take(s, maxSize))
          case ReadFails(msg) => Some(ReadErrorPrefix + msg)
    else None
  }

  // ---------------------------------------------------------------------------
  // FileSystemEmitter.file_system_generator
  // ---------------------------------------------------------------------------

  datatype EventKind = Subtopic | Detail

  /** One emitted tuple `(topic_type, parent, content, api_response, file_content)`. */
  datatype Event = Event(kind: EventKind, parent: string, content: string,
                         summary: Option<string>, fileText: Option<string>)

  const MainTopic: string := "Main Topic"

  const ExcludeDirs: set<string> := {".git", ".idea", "__pycache__", "node_modules", "venv", "env"}

  /** `dirs[:] = [d for d in dirs if d not in exclude_dirs]`: the sub-directories the walk descends into. */
  function Prune(dirs: seq<Dir>): (r: seq<Dir>)
    ensures |r| <= |dirs|
    ensures forall d :: d in r <==> d in dirs && d.name !in ExcludeDirs
    ensures |dirs| == 1 ==> r == if dirs[0].name in ExcludeDirs then [] else dirs
  {
    if dirs == [] then []
    else
      var rest := Prune(dirs[1..]);
      assert forall d :: d in dirs <==> d == dirs[0] || d in dirs[1..];
      if dirs[0].name in ExcludeDirs then rest else [dirs[0]] + rest
  }

  /** Pruning keeps the listing order: it distributes over concatenation, so with
      Prune's own contract on a single directory, the kept directories are `dirs`
      with the excluded ones dropped, in order. */
  lemma {:induction false} PruneKeepsOrder(a: seq<Dir>, b: seq<Dir>)
    ensures Prune(a + b) == Prune(a) + Prune(b)
    decreases |a|
  {
    if a == [] {
      assert a + b == b;
    } else {
      assert (a + b)[1..] == a[1..] + b;
      PruneKeepsOrder(a[1..], b);
    }
  }

  /** The detail event for one file of directory `dirName`. */
  function FileEvent(dirName: string, f: FileRecord, summarize: FileRecord -> string): Event
  {
    Event(Detail, if dirName != "." then dirName else MainTopic, f.name,
          Some(summarize(f)), ReadFileContent(f, MaxFileSize))
  }

  /** The events one `os.walk` step yields for directory `d` whose parent label is `parent`. */
  function StepEvents(d: Dir, parent: string, summarize: FileRecord -> string): (r: seq<Event>)
    ensures forall k :: 0 <= k < |r| ==> r[k].parent !in ExcludeDirs || r[k].kind == Subtopic
    ensures forall k :: 0 <= k < |r| && r[k].kind == Subtopic ==>
              k == 0 && r[k].content == d.name && r[k].parent == parent && r[k].content !in ExcludeDirs
    ensures d.name in ExcludeDirs ==> r == []
    ensures d.name !in ExcludeDirs ==>
              var off := if d.name != "" && d.name != "." then 1 else 0;
              && |r| == off + |d.files|
              && (off == 1 ==> r[0] == Event(Subtopic, parent, d.name, None, None))
              && forall k :: off <= k < |r| ==> r[k] == FileEvent(d.name, d.files[k - off], summarize)
  {
    if d.name in ExcludeDirs then []
    else
      var details := FileEvents(d, summarize);
      if d.name != "" && d.name != "." then [Event(Subtopic, parent, d.name, None, None)] + details
      else details
  }

  /** One detail event per file of `d`, in file order. */
  function FileEvents(d: Dir, summarize: FileRecord -> string): (r: seq<Event>)
    ensures |r| == |d.files|
    ensures forall k :: 0 <= k < |r| ==> r[k] == FileEvent(d.name, d.files[k], summarize)
    ensures forall k :: 0 <= k < |r| ==> r[k].kind == Detail && (d.name !in ExcludeDirs ==> r[k].parent !in ExcludeDirs)
  {
    seq(|d.files|, k requires 0 <= k < |d.files| => FileEvent(d.name, d.files[k], summarize))
  }

  /** file_system_generator over the tree below `d`: pre-order, as `os.walk(topdown=True)`. */
  function WalkEvents(d: Dir, parent: string, summarize: FileRecord -> string): seq<Event>
    decreases d, 1
  {
    StepEvents(d, parent, summarize) + ChildEvents(d, Prune(d.subdirs), summarize)
  }

  /** The walks of the kept sub-directories `kids` of `owner`, in order. */
  function ChildEvents(owner: Dir, kids: seq<Dir>, summarize: FileRecord -> string): seq<Event>
    requires forall k :: k in kids ==> k in owner.subdirs
    decreases owner, 0, |kids|
  {
    if kids == [] then []
    else
      assert kids[0] in owner.subdirs;
      WalkEvents(kids[0], owner.name, summarize) + ChildEvents(owner, kids[1..], summarize)
  }

  /** file_system_generator(root_dir): the root's parent label is "Main Topic". */
  function FileSystemGenerator(root: Dir, summarize: FileRecord -> string): seq<Event>
  {
    WalkEvents(root, MainTopic, summarize)
  }

  /** No subtopic event ever names an excluded directory, and no detail event
      has an excluded directory as its parent: pruned directories are never entered. */
  lemma {:induction false} WalkSkipsExcluded(d: Dir, parent: string, summarize: FileRecord -> string)
    ensures forall e :: e in WalkEvents(d, parent, summarize) ==>
              (e.kind == Subtopic ==> e.content !in ExcludeDirs) &&
              (e.kind == Detail ==> e.parent !in ExcludeDirs)
    decreases d, 1
  {
    ChildrenSkipExcluded(d, Prune(d.subdirs), summarize);
  }

  lemma {:induction false} ChildrenSkipExcluded(owner: Dir, kids: seq<Dir>, summarize: FileRecord -> string)
    requires forall k :: k in kids ==> k in owner.subdirs
    ensures forall e :: e in ChildEvents(owner, kids, summarize) ==>
              (e.kind == Subtopic ==> e.content !in ExcludeDirs) &&
              (e.kind == Detail ==> e.parent !in ExcludeDirs)
    decreases owner, 0, |kids|
  {
    if kids != [] {
      assert kids[0] in owner.subdirs;
      WalkSkipsExcluded(kids[0], owner.name, summarize);
      ChildrenSkipExcluded(owner, kids[1..], summarize);
    }
  }

  /** The root directory's own subtopic event, when there is one, comes first and has parent "Main Topic". */
  lemma RootEventFirst(root: Dir, summarize: FileRecord -> string)
    requires root.name != "" && root.name != "." && root.name !in ExcludeDirs
    ensures |FileSystemGenerator(root, summarize)| > 0
    ensures FileSystemGenerator(root, summarize)[0] == Event(Subtopic, MainTopic, root.name, None, None)
  {
  }

  /** The random summary never affects which keys a walk produces. */
  lemma {:induction false} WalkKeysIgnoreSummaries(d: Dir, parent: string, s1: FileRecord -> string, s2: FileRecord -> string)
    ensures KeySet(WalkEvents(d, parent, s1)) == KeySet(WalkEvents(d, parent, s2))
    decreases d, 1
  {
    var a1, a2 := StepEvents(d, parent, s1), StepEvents(d, parent, s2);
    assert |a1| == |a2| && forall k :: 0 <= k < |a1| ==> Key(a1[k]) == Key(a2[k]);
    SameKeysSameKeySet(a1, a2);
    ChildKeysIgnoreSummaries(d, Prune(d.subdirs), s1, s2);
    KeySetConcat(a1, ChildEvents(d, Prune(d.subdirs), s1));
    KeySetConcat(a2, ChildEvents(d, Prune(d.subdirs), s2));
  }

  lemma {:induction false} ChildKeysIgnoreSummaries(owner: Dir, kids: seq<Dir>, s1: FileRecord -> string, s2: FileRecord -> string)
    requires forall k :: k in kids ==> k in owner.subdirs
    ensures KeySet(ChildEvents(owner, kids, s1)) == KeySet(ChildEvents(owner, kids, s2))
    decreases owner, 0, |kids|
  {
    if kids != [] {
      assert kids[0] in owner.subdirs;
      WalkKeysIgnoreSummaries(kids[0], owner.name, s1, s2);
      ChildKeysIgnoreSummaries(owner, kids[1..], s1, s2);
      KeySetConcat(WalkEvents(kids[0], owner.name, s1), ChildEvents(owner, kids[1..], s1));
      KeySetConcat(WalkEvents(kids[0], owner.name, s2), ChildEvents(owner, kids[1..], s2));
    }
  }

  // ---------------------------------------------------------------------------
  // FileSystemEmitter.process_directory: deduplication
  // ---------------------------------------------------------------------------

  function KindName(k: EventKind): string
  {
    match k
    case Subtopic => "subtopic"
    case Detail => "detail"
  }

  /** `f"{topic_type}:{parent}:{content}"`. */
  function Key(e: Event): string
  {
    KindName(e.kind) + ":" + e.parent + ":" + e.content
  }

  /** The keys of a sequence of events. */
  function KeySet(es: seq<Event>): set<string>
  {
    set e | e in es :: Key(e)
  }

  lemma KeySetConcat(a: seq<Event>, b: seq<Event>)
    ensures KeySet(a + b) == KeySet(a) + KeySet(b)
  {
    assert forall e :: e in a + b <==> e in a || e in b;
  }

  lemma SameKeysSameKeySet(a: seq<Event>, b: seq<Event>)
    requires |a| == |b| && forall k :: 0 <= k < |a| ==> Key(a[k]) == Key(b[k])
    ensures KeySet(a) == KeySet(b)
  {
    forall x | x in KeySet(a) ensures x in KeySet(b) {
      var e :| e in a && Key(e) == x;
      var k :| 0 <= k < |a| && a[k] == e;
      assert b[k] in b;
    }
    forall x | x in KeySet(b) ensures x in KeySet(a) {
      var e :| e in b && Key(e) == x;
      var k :| 0 <= k < |b| && b[k] == e;
      assert a[k] in a;
    }
  }

  /** The events one pass of process_directory emits when `seen` holds the keys of earlier passes. */
  function DedupPass(seen: set<string>, es: seq<Event>): seq<Event>
  {
    if es == [] then []
    else
      var init := es[..|es| - 1];
      var e := es[|es| - 1];
      if Key(e) in seen + KeySet(init) then DedupPass(seen, init) else DedupPass(seen, init) + [e]
  }

  /** One more event at the end of a pass is emitted exactly when its key is new. */
  lemma DedupPassSnoc(seen: set<string>, es: seq<Event>, e: Event)
    ensures DedupPass(seen, es + [e]) ==
              if Key(e) in seen + KeySet(es) then DedupPass(seen, es) else DedupPass(seen, es) + [e]
    ensures KeySet(es + [e]) == KeySet(es) + {Key(e)}
  {
    assert (es + [e])[..|es|] == es;
    KeySetConcat(es, [e]);
  }

  /** One loop step of process_directory: given the key set and output after the
      prefix ending before index `i`, the event at `i` is emitted exactly when its
      key is new, and its key joins the set. */
  lemma DedupPassStep(seen: set<string>, events: seq<Event>, i: nat, items: set<string>, out: seq<Event>)
    requires i < |events|
    requires items == seen + KeySet(events[..i]) && out == DedupPass(seen, events[..i])
    ensures Key(events[i]) in items ==>
              DedupPass(seen, events[..i + 1]) == out && items == seen + KeySet(events[..i + 1])
    ensures Key(events[i]) !in items ==>
              && DedupPass(seen, events[..i + 1]) == out + [events[i]]
              && items + {Key(events[i])} == seen + KeySet(events[..i + 1])
  {
    var prefix, e := events[..i], events[i];
    assert events[..i + 1] == prefix + [e];
    DedupPassSnoc(seen, prefix, e);
    assert seen + KeySet(prefix + [e]) == items + {Key(e)};
  }

  /** Only events whose key was not already recorded are emitted, each key at most
      once, and every new key is emitted. */
  lemma {:induction false} DedupPassEmitsNewKeysOnce(seen: set<string>, es: seq<Event>)
    ensures forall e :: e in DedupPass(seen, es) ==> e in es && Key(e) !in seen
    ensures forall i, j :: 0 <= i < j < |DedupPass(seen, es)| ==>
              Key(DedupPass(seen, es)[i]) != Key(DedupPass(seen, es)[j])
    ensures KeySet(DedupPass(seen, es)) == KeySet(es) - seen
  {
    if es != [] {
      var init := es[..|es| - 1];
      var e := es[|es| - 1];
      assert es == init + [e];
      DedupPassEmitsNewKeysOnce(seen, init);
      KeySetConcat(init, [e]);
      var out := DedupPass(seen, init);
      if Key(e) !in seen + KeySet(init) {
        KeySetConcat(out, [e]);
        forall i, j | 0 <= i < j < |out + [e]| ensures Key((out + [e])[i]) != Key((out + [e])[j]) {
          if j == |out| {
            assert (out + [e])[i] in out;
          }
        }
      }
    }
  }

  /** A pass whose events carry only keys already recorded emits nothing. */
  lemma {:induction false} DedupPassKnownKeys(seen: set<string>, es: seq<Event>)
    requires KeySet(es) <= seen
    ensures DedupPass(seen, es) == []
  {
    if es != [] {
      var init := es[..|es| - 1];
      assert es == init + [es[|es| - 1]];
      KeySetConcat(init, [es[|es| - 1]]);
      DedupPassKnownKeys(seen, init);
    }
  }

  /** Running the walk a second time over an unchanged tree emits nothing, whatever
      summaries the second pass draws. */
  lemma SecondPassEmitsNothing(root: Dir, seen: set<string>, s1: FileRecord -> string, s2: FileRecord -> string)
    ensures DedupPass(seen + KeySet(FileSystemGenerator(root, s1)), FileSystemGenerator(root, s2)) == []
  {
    WalkKeysIgnoreSummaries(root, MainTopic, s1, s2);
    DedupPassKnownKeys(seen + KeySet(FileSystemGenerator(root, s1)), FileSystemGenerator(root, s2));
  }

  /** The key is a joined string, so two different events can share it: a detail
      named "b:c" under "a" and one named "c" under "a:b". */
  lemma KeyNotInjective()
    ensures Key(Event(Detail, "a", "b:c", None, None)) == Key(Event(Detail, "a:b", "c", None, None))
  {
  }

  /** FileSystemEmitter: the key set persists across passes of process_directory. */
  class FileSystemEmitter {
    var running: bool
    var processedItems: set<string>

    constructor ()
      ensures running && processedItems == {}
    {
      running := true;
      processedItems := {};
    }

    /** FileSystemEmitter.stop: the next pass is not started. */
    method Stop()
      modifies this`running
      ensures !running
    {
      running := false;
    }

    /** One pass of the loop body of process_directory over the generator's events. */
    method ProcessPass(events: seq<Event>) returns (emitted: seq<Event>)
      modifies this`processedItems
      ensures processedItems == old(processedItems) + KeySet(events)
      ensures emitted == DedupPass(old(processedItems), events)
    {
      ghost var seen := processedItems;
      emitted := [];
      for i := 0 to |events|
        invariant processedItems == seen + KeySet(events[..i])
        invariant emitted == DedupPass(seen, events[..i])
      {
        var e := events[i];
        var itemKey := Key(e);
        DedupPassStep(seen, events, i, processedItems, emitted);
        if itemKey !in processedItems {
          processedItems := processedItems + {itemKey};
          emitted := emitted + [e];
        }
      }
      assert events[..|events|] == events;
    }
  }
}
