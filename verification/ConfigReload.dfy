/**
 Configuration reloads gated by a checksum of the file, interleaved with arbitrary edits of that
 file. The checksum and the parser are parameters; the parser is the YAML decoder with all validation.
 */
module ConfigReload {
  import opened Wrappers

  type Content = string

  datatype File = Unreadable | Readable(content: Content)

  datatype Format<!C> = Format(sum: Content -> string, parse: Content -> Option<C>) {
    /** Different contents have different checksums, and no checksum is empty. */
    ghost predicate CollisionFree() {
      && (forall a, b :: sum(a) == sum(b) ==> a == b)
      && (forall a :: sum(a) != "")
    }
  }

  /** The live configuration, the stored checksum, and the success gauge. */
  datatype Loaded<C> = Loaded(live: C, checksum: string, ok: bool)

  /** One reload: the file is read twice, once for the checksum and once for parsing. */
  function Reloaded<C>(l: Loaded<C>, first: File, second: File, f: Format<C>): Loaded<C> {
    if first.Unreadable? then l.(ok := false)
    else if f.sum(first.content) == l.checksum then l.(ok := true)
    else if second.Unreadable? || f.parse(second.content).None? then l.(ok := false)
    else Loaded(f.parse(second.content).value, f.sum(first.content), true)
  }

  /** SafeConfig. */
  class SafeConfig<C> {
    var live: C
    var checksum: string
    var ok: bool

    constructor (empty: C)
      ensures live == empty && checksum == ""
    {
      live, checksum, ok := empty, "", false;
    }

    /** ReloadConfig. A failed reload leaves the configuration and the checksum untouched. */
    method ReloadConfig(first: File, second: File, f: Format<C>) returns (failed: bool)
      modifies this
      ensures Loaded(live, checksum, ok) == Reloaded(old(Loaded(live, checksum, ok)), first, second, f)
      ensures failed == !ok && (failed ==> live == old(live) && checksum == old(checksum))
    {
      if first.Unreadable? {
        ok := false;
        return true;
      }
      var current := f.sum(first.content);
      if current == checksum {
        ok := true;
        return false;
      }
      if second.Unreadable? {
        ok := false;
        return true;
      }
      var c := f.parse(second.content);
      if c.None? {
        ok := false;
        return true;
      }
      live := c.value;
      checksum := current;
      ok := true;
      return false;
    }
  }

  // ----- runs -----

  /** An edit of the file, or a reload during which the given edits fall between the two reads. */
  datatype Action = Edit(file: File) | Reload(between: seq<File>)

  /** `source` is the content from which the live configuration was parsed. */
  datatype State<C> = State(file: File, loaded: Loaded<C>, source: Option<Content>)

  function AfterEdits(file: File, edits: seq<File>): File {
    if edits == [] then file else edits[|edits| - 1]
  }

  /** Edits take effect one after the other; the last one counts. */
  lemma EditsInOrder(file: File, edits: seq<File>, more: seq<File>, last: File)
    ensures AfterEdits(file, edits + more) == AfterEdits(AfterEdits(file, edits), more)
    ensures AfterEdits(file, edits + [last]) == last
  {
    if more == [] {
      assert edits + more == edits;
    }
  }

  function Apply<C>(s: State<C>, a: Action, f: Format<C>): State<C> {
    match a
    case Edit(file) => s.(file := file)
    case Reload(between) =>
      var second := AfterEdits(s.file, between);
      var installs := s.file.Readable? && f.sum(s.file.content) != s.loaded.checksum
                      && second.Readable? && f.parse(second.content).Some?;
      State(second, Reloaded(s.loaded, s.file, second, f), if installs then Some(second.content) else s.source)
  }

  function Run<C>(s: State<C>, actions: seq<Action>, f: Format<C>): State<C>
    decreases |actions|
  {
    if actions == [] then s else Run(Apply(s, actions[0], f), actions[1..], f)
  }

  /** All edits of a run, in order. */
  function EditsOf(actions: seq<Action>): seq<File> {
    if actions == [] then []
    else (match actions[0] case Edit(file) => [file] case Reload(between) => between) + EditsOf(actions[1..])
  }

  /** The file is what the last edit made of it, whether that fell into a reload or not. */
  lemma {:induction false} FileAfterRun<C>(s: State<C>, actions: seq<Action>, f: Format<C>)
    ensures Run(s, actions, f).file == AfterEdits(s.file, EditsOf(actions))
    decreases |actions|
  {
    if actions != [] {
      var first := match actions[0] case Edit(file) => [file] case Reload(between) => between;
      FileAfterRun(Apply(s, actions[0], f), actions[1..], f);
      EditsInOrder(s.file, first, EditsOf(actions[1..]), s.file);
    }
  }

  function Initial<C>(file: File, empty: C): State<C> {
    State(file, Loaded(empty, "", false), None)
  }

  /** No edit falls between the two reads of any reload. */
  predicate Quiet(actions: seq<Action>) {
    forall i :: 0 <= i < |actions| && actions[i].Reload? ==> actions[i].between == []
  }

  /** The live configuration was parsed from its source, and the stored checksum belongs to the same content. */
  ghost predicate Consistent<C>(s: State<C>, f: Format<C>) {
    if s.source.None? then s.loaded.checksum == ""
    else s.loaded.checksum == f.sum(s.source.value) && f.parse(s.source.value) == Some(s.loaded.live)
  }

  lemma {:induction false} QuietRunsStayConsistent<C>(s: State<C>, actions: seq<Action>, f: Format<C>)
    requires Consistent(s, f) && Quiet(actions)
    ensures Consistent(Run(s, actions, f), f)
    decreases |actions|
  {
    if actions != [] {
      assert Consistent(Apply(s, actions[0], f), f);
      QuietRunsStayConsistent(Apply(s, actions[0], f), actions[1..], f);
    }
  }

  /**
   After any quiet run, a reload that reports success leaves the live configuration equal to what
   the file says, whether it parsed the file or skipped it on an equal checksum.
   */
  lemma SuccessMeansUpToDate<C>(file: File, empty: C, actions: seq<Action>, f: Format<C>)
    requires Quiet(actions) && f.CollisionFree()
    ensures var s := Apply(Run(Initial(file, empty), actions, f), Reload([]), f);
            s.loaded.ok ==> s.file.Readable? && f.parse(s.file.content) == Some(s.loaded.live)
  {
    var s := Run(Initial(file, empty), actions, f);
    QuietRunsStayConsistent(Initial(file, empty), actions, f);
    if s.file.Readable? && f.sum(s.file.content) == s.loaded.checksum {
      assert s.source == Some(s.file.content);
    }
  }

  /** Over every run, quiet or not, the live configuration was parsed from its source. */
  lemma {:induction false} LiveComesFromSource<C>(s: State<C>, actions: seq<Action>, f: Format<C>)
    requires s.source.Some? ==> f.parse(s.source.value) == Some(s.loaded.live)
    ensures var r := Run(s, actions, f); r.source.Some? ==> f.parse(r.source.value) == Some(r.loaded.live)
    decreases |actions|
  {
    if actions != [] {
      LiveComesFromSource(Apply(s, actions[0], f), actions[1..], f);
    }
  }

  /** A reload that installs a configuration leaves a consistent state exactly if both reads saw the same content. */
  lemma InstallConsistentIff<C>(s: State<C>, between: seq<File>, f: Format<C>)
    requires f.CollisionFree() && s.file.Readable? && f.sum(s.file.content) != s.loaded.checksum
    requires var second := AfterEdits(s.file, between); second.Readable? && f.parse(second.content).Some?
    ensures Consistent(Apply(s, Reload(between), f), f) <==> AfterEdits(s.file, between) == s.file
  {
  }

  /** Reload again and again without an edit. */
  function Reloads(n: nat): seq<Action> {
    seq(n, _ => Reload([]))
  }

  lemma {:induction false} SkipsForever<C>(s: State<C>, n: nat, f: Format<C>)
    requires s.file.Readable? && s.loaded.checksum == f.sum(s.file.content)
    ensures var r := Run(s, Reloads(n), f);
            r.loaded.live == s.loaded.live && (0 < n ==> r.loaded.ok) && r.file == s.file
    decreases n
  {
    if 0 < n {
      assert Reloads(n)[1..] == Reloads(n - 1);
      SkipsForever(Apply(s, Reload([]), f), n - 1, f);
    }
  }

  /**
   The stale case: if an edit from `a` to `b` falls between the two reads and the file is then edited
   back to `a`, every later reload reports success and keeps the configuration of `b`.
   */
  lemma RacingEditGoesStale<C>(s: State<C>, a: Content, b: Content, n: nat, f: Format<C>)
    requires f.CollisionFree() && f.parse(a).Some? && f.parse(b).Some? && f.parse(a) != f.parse(b)
    requires s.loaded.checksum != f.sum(a) && 0 < n
    ensures var r := Run(s, [Edit(Readable(a)), Reload([Readable(b)]), Edit(Readable(a))] + Reloads(n), f);
            r.loaded.ok && r.file == Readable(a) && f.parse(a) != Some(r.loaded.live) == f.parse(b)
  {
    var race := [Edit(Readable(a)), Reload([Readable(b)]), Edit(Readable(a))];
    var all := race + Reloads(n);
    var s1 := Apply(s, all[0], f);
    var s2 := Apply(s1, all[1], f);
    var s3 := Apply(s2, all[2], f);
    assert all[1..][1..][1..] == Reloads(n);
    assert Run(s, all, f) == Run(s1, all[1..], f) == Run(s2, all[1..][1..], f) == Run(s3, Reloads(n), f);
    SkipsForever(s3, n, f);
  }
}
