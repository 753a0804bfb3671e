/**
 The organiser's run over an abstract target folder. The folder is a map from
 top-level names to entries; a directory entry holds the set of names inside
 it. A run creates the category folders (real mode only), takes the listing
 once, skips everything that is not a regular file, and for each regular
 file either reports the planned move (dry run) or carries it out and counts
 it (real mode).
 */
module Organizer {
  import opened Classifier
  import opened Collision

  /** A top-level entry: a regular file, or a directory and the names it holds. */
  datatype Entry = File | Dir(names: set<string>)

  /** The target folder's top level. */
  type Folder = map<string, Entry>

  /** What the path given on the command line turned out to be. */
  datatype Target = Missing | NotADirectory | Directory(folder: Folder)

  datatype TargetError = PathDoesNotExist | PathIsNotADirectory

  /** One file's move as it is reported and, in real mode, carried out. */
  datatype MovePlan = MovePlan(source: string, category: string, dest: string) {
    /** The move had to pick a numbered name. */
    predicate Renamed()
    {
      dest != source
    }
  }

  /** The state threaded through the loop over the listing. */
  datatype RunState = RunState(folder: Folder, summary: map<string, nat>, plans: seq<MovePlan>)

  /** The outcome of the command-line run: an abort happens before any folder is created or file moved. */
  datatype Outcome = Aborted(error: TargetError) | Completed(state: RunState)

  /** `os.path.isfile` on a top-level name. */
  predicate IsFile(folder: Folder, name: string)
  {
    name in folder && folder[name].File?
  }

  /** The names `os.path.exists` finds inside top-level directory `dir`. */
  function Contents(folder: Folder, dir: string): set<string>
  {
    if dir in folder && folder[dir].Dir? then folder[dir].names else {}
  }

  predicate Distinct(xs: seq<string>)
  {
    forall i, j :: 0 <= i < j < |xs| ==> xs[i] != xs[j]
  }

  /** `listing` is one enumeration of the folder's top level, as `os.listdir` gives it. */
  predicate IsListing(listing: seq<string>, folder: Folder)
  {
    && Distinct(listing)
    && (forall i :: 0 <= i < |listing| ==> listing[i] in folder)
    && (forall k :: k in folder ==> k in listing)
  }

  /** The case the model leaves out: a regular file that has a category's name. */
  predicate NoFileNamedLikeCategory(folder: Folder, table: Table)
  {
    forall k :: IsFile(folder, k) ==> k !in Names(table)
  }

  /** What a real move needs: every category folder exists and a counter for every category. */
  predicate Ready(st: RunState, table: Table)
  {
    && WellFormed(table)
    && (forall c :: c in Names(table) ==> c in st.folder && st.folder[c].Dir?)
    && (forall c :: c in Names(table) ==> c in st.summary)
  }

  /**
   Creating the category folders: each category name that does not exist yet
   becomes an empty directory; existing entries are left alone.
   */
  function MakeCategoryDirs(folder: Folder, table: Table): (r: Folder)
    ensures forall k :: k in r <==> k in folder || k in Names(table)
    ensures forall k :: k in folder ==> r[k] == folder[k]
    ensures forall k :: k in r && k !in folder ==> r[k] == Dir({})
    decreases |table|
  {
    if table == [] then folder
    else
      var name := table[0].name;
      var next := if name in folder then folder else folder[name := Dir({})];
      var r := MakeCategoryDirs(next, table[1..]);
      assert forall k :: k in Names(table) <==> k == name || k in Names(table[1..]);
      r
  }

  /** Creating the category folders a second time changes nothing. */
  lemma MakeCategoryDirsIdempotent(folder: Folder, table: Table)
    ensures MakeCategoryDirs(MakeCategoryDirs(folder, table), table) == MakeCategoryDirs(folder, table)
  {
    var once := MakeCategoryDirs(folder, table);
    var twice := MakeCategoryDirs(once, table);
    assert twice.Keys == once.Keys;
  }

  /** After the folders are made, the real run can start, and no file has been touched. */
  lemma MakeCategoryDirsReady(folder: Folder, table: Table)
    requires WellFormed(table)
    requires NoFileNamedLikeCategory(folder, table)
    ensures Ready(RunState(MakeCategoryDirs(folder, table), ZeroSummary(table), []), table)
    ensures forall k :: IsFile(MakeCategoryDirs(folder, table), k) <==> IsFile(folder, k)
  {
  }

  /** The summary at the start of a run: a zero counter for every category. */
  function ZeroSummary(table: Table): (r: map<string, nat>)
    ensures forall c :: c in r <==> c in Names(table)
    ensures forall c :: c in r ==> r[c] == 0
  {
    map c | c in Names(table) :: 0
  }

  /** The folder the listing is taken from: category folders exist only in real mode. */
  function Prepare(folder: Folder, table: Table, dryRun: bool): Folder
  {
    if dryRun then folder else MakeCategoryDirs(folder, table)
  }

  /** The plan for one regular file, worked out against `folder` as it is now. */
  function Plan(folder: Folder, name: string, table: Table): (p: MovePlan)
    ensures p.source == name
    ensures p.dest !in Contents(folder, p.category)
    ensures p.Renamed() <==> name in Contents(folder, p.category)
  {
    var category := Classify(name, table);
    MovePlan(name, category, Resolve(name, Contents(folder, category)))
  }

  /**
   A real move: the destination was free, the category folder gains exactly
   it, the source leaves the top level, one counter goes up by one, and
   nothing else changes.
   */
  ghost predicate Moved(st: RunState, r: RunState, p: MovePlan)
  {
    && p.dest !in Contents(st.folder, p.category)
    && Contents(r.folder, p.category) == Contents(st.folder, p.category) + {p.dest}
    && r.folder.Keys == st.folder.Keys - {p.source}
    && (forall k :: k in r.folder && k != p.category ==> r.folder[k] == st.folder[k])
    && p.category in st.summary
    && r.summary.Keys == st.summary.Keys
    && r.summary[p.category] == st.summary[p.category] + 1
    && (forall c :: c in r.summary && c != p.category ==> r.summary[c] == st.summary[c])
  }

  /**
   Carrying a plan out: `shutil.move` of the source into its category folder
   under the planned name, then one more for that category in the summary.
   */
  function Move(st: RunState, p: MovePlan): (r: RunState)
    requires p.category in st.folder && st.folder[p.category].Dir?
    requires p.category in st.summary
    requires p.source != p.category
    ensures Contents(r.folder, p.category) == Contents(st.folder, p.category) + {p.dest}
    ensures p.category in r.folder && r.folder[p.category].Dir?
    ensures r.folder.Keys == st.folder.Keys - {p.source}
    ensures forall k :: k in r.folder && k != p.category ==> r.folder[k] == st.folder[k]
    ensures r.summary.Keys == st.summary.Keys
    ensures r.summary[p.category] == st.summary[p.category] + 1
    ensures forall c :: c in r.summary && c != p.category ==> r.summary[c] == st.summary[c]
    ensures r.plans == st.plans + [p]
  {
    var cat := p.category;
    RunState(
      (st.folder - {p.source})[cat := Dir(Contents(st.folder, cat) + {p.dest})],
      st.summary[cat := st.summary[cat] + 1],
      st.plans + [p])
  }

  /** One iteration of the loop over the listing. */
  function Step(st: RunState, name: string, table: Table, dryRun: bool): (r: RunState)
    requires !dryRun ==> Ready(st, table)
    ensures !IsFile(st.folder, name) ==> r == st
    ensures IsFile(st.folder, name) ==> r.plans == st.plans + [Plan(st.folder, name, table)]
    ensures dryRun ==> r.folder == st.folder && r.summary == st.summary
    ensures !dryRun ==> Ready(r, table)
    ensures !dryRun && IsFile(st.folder, name) ==> Moved(st, r, Plan(st.folder, name, table))
    ensures forall k :: k != name ==> (IsFile(r.folder, k) <==> IsFile(st.folder, k))
    ensures r.summary.Keys == st.summary.Keys
  {
    if !IsFile(st.folder, name) then st
    else
      var p := Plan(st.folder, name, table);
      if dryRun then st.(plans := st.plans + [p])
      else
        assert p.category in Names(table);
        MoveKeepsReady(st, p, table);
        Move(st, p)
  }

  /** Moving a file keeps every category folder in place. */
  lemma MoveKeepsReady(st: RunState, p: MovePlan, table: Table)
    requires Ready(st, table)
    requires p.category in Names(table)
    requires p.source !in Names(table)
    ensures Ready(Move(st, p), table)
  {
    var r := Move(st, p);
    forall c | c in Names(table)
      ensures c in r.folder && r.folder[c].Dir?
    {
      if c != p.category {
        assert c != p.source && c in st.folder;
      }
    }
  }

  /** The loop over the listing, which is taken once, before the loop. */
  function RunFrom(st: RunState, listing: seq<string>, table: Table, dryRun: bool): (r: RunState)
    requires !dryRun ==> Ready(st, table)
    ensures !dryRun ==> Ready(r, table)
    ensures r.summary.Keys == st.summary.Keys
    decreases |listing|
  {
    if listing == [] then st
    else RunFrom(Step(st, listing[0], table, dryRun), listing[1..], table, dryRun)
  }

  /** The run both scripts perform on an existing target folder. */
  function Organize(folder: Folder, table: Table, dryRun: bool, listing: seq<string>): (r: RunState)
    requires !dryRun ==> WellFormed(table) && NoFileNamedLikeCategory(folder, table)
    requires IsListing(listing, Prepare(folder, table, dryRun))
    ensures forall c :: c in r.summary <==> c in Names(table)
  {
    var start := RunState(Prepare(folder, table, dryRun), ZeroSummary(table), []);
    assert !dryRun ==> Ready(start, table) by {
      if !dryRun {
        MakeCategoryDirsReady(folder, table);
      }
    }
    RunFrom(start, listing, table, dryRun)
  }

  /**
   The command-line run: a missing target or one that is not a directory
   aborts before anything is created or moved.
   */
  function RunCli(target: Target, table: Table, dryRun: bool, listing: seq<string>): (r: Outcome)
    requires target.Directory? && !dryRun ==>
               WellFormed(table) && NoFileNamedLikeCategory(target.folder, table)
    requires target.Directory? ==> IsListing(listing, Prepare(target.folder, table, dryRun))
    ensures r.Aborted? <==> !target.Directory?
    ensures target.Missing? ==> r.error == PathDoesNotExist
    ensures target.NotADirectory? ==> r.error == PathIsNotADirectory
  {
    match target
    case Missing => Aborted(PathDoesNotExist)
    case NotADirectory => Aborted(PathIsNotADirectory)
    case Directory(folder) => Completed(Organize(folder, table, dryRun, listing))
  }

  // ---------------------------------------------------------------------------
  // Counting

  /** How many listed names are regular files of `folder` that classify into `c`. */
  function CountInto(listing: seq<string>, folder: Folder, table: Table, c: string): nat
  {
    if listing == [] then 0
    else
      (if IsFile(folder, listing[0]) && Classify(listing[0], table) == c then 1 else 0)
      + CountInto(listing[1..], folder, table, c)
  }

  /** How many listed names are regular files of `folder`. */
  function CountFiles(listing: seq<string>, folder: Folder): nat
  {
    if listing == [] then 0
    else (if IsFile(folder, listing[0]) then 1 else 0) + CountFiles(listing[1..], folder)
  }

  /** `sum(summary.values())`, taken over the table's categories. */
  function Total(summary: map<string, nat>, names: seq<string>): nat
    requires forall i :: 0 <= i < |names| ==> names[i] in summary
  {
    if names == [] then 0 else summary[names[0]] + Total(summary, names[1..])
  }

  /** The listed names that are regular files of `folder`, in listing order. */
  function RegularFiles(listing: seq<string>, folder: Folder): (r: seq<string>)
    ensures |r| == CountFiles(listing, folder)
    ensures forall k :: k in r <==> k in listing && IsFile(folder, k)
  {
    if listing == [] then []
    else
      var rest := RegularFiles(listing[1..], folder);
      assert forall k :: k in listing <==> k == listing[0] || k in listing[1..];
      if IsFile(folder, listing[0]) then [listing[0]] + rest else rest
  }

  /** The plans a dry run reports: one per regular file, in listing order, all against `folder`. */
  function Previews(folder: Folder, listing: seq<string>, table: Table): seq<MovePlan>
  {
    if listing == [] then []
    else
      var rest := Previews(folder, listing[1..], table);
      if IsFile(folder, listing[0]) then [Plan(folder, listing[0], table)] + rest else rest
  }

  /**
   The previews hold one plan per listed regular file, each classified by
   its own name and resolved against the folder the preview was made on.
   */
  lemma {:induction false} PreviewsFaithful(folder: Folder, listing: seq<string>, table: Table)
    ensures |Previews(folder, listing, table)| == CountFiles(listing, folder)
    ensures |Previews(folder, listing, table)| == |RegularFiles(listing, folder)|
    ensures forall i :: 0 <= i < |Previews(folder, listing, table)| ==>
              var p := Previews(folder, listing, table)[i];
              && p.source == RegularFiles(listing, folder)[i]
              && IsFile(folder, p.source)
              && p.source in listing
              && p.category == Classify(p.source, table)
              && p.dest == Resolve(p.source, Contents(folder, p.category))
    ensures forall k :: k in listing && IsFile(folder, k) ==>
              exists i :: 0 <= i < |Previews(folder, listing, table)| && Previews(folder, listing, table)[i].source == k
    decreases |listing|
  {
    if listing != [] {
      PreviewsFaithful(folder, listing[1..], table);
      var ps := Previews(folder, listing, table);
      var rest := Previews(folder, listing[1..], table);
      forall k | k in listing && IsFile(folder, k)
        ensures exists i :: 0 <= i < |ps| && ps[i].source == k
      {
        if k == listing[0] {
          assert ps[0].source == k;
        } else {
          assert k in listing[1..];
          var j :| 0 <= j < |rest| && rest[j].source == k;
          if IsFile(folder, listing[0]) {
            assert ps[j + 1].source == k;
          } else {
            assert ps[j].source == k;
          }
        }
      }
    }
  }

  lemma {:induction false} CountIntoFrame(listing: seq<string>, f1: Folder, f2: Folder, table: Table, c: string)
    requires forall i :: 0 <= i < |listing| ==> (IsFile(f1, listing[i]) <==> IsFile(f2, listing[i]))
    ensures CountInto(listing, f1, table, c) == CountInto(listing, f2, table, c)
    decreases |listing|
  {
    if listing != [] {
      CountIntoFrame(listing[1..], f1, f2, table, c);
    }
  }

  /** Two folders that agree on which listed names are regular files have as many listed regular files. */
  lemma {:induction false} CountFilesFrame(listing: seq<string>, f1: Folder, f2: Folder)
    requires forall i :: 0 <= i < |listing| ==> (IsFile(f1, listing[i]) <==> IsFile(f2, listing[i]))
    ensures CountFiles(listing, f1) == CountFiles(listing, f2)
    decreases |listing|
  {
    if listing != [] {
      CountFilesFrame(listing[1..], f1, f2);
    }
  }

  /** Raising one counter by one raises the total by one. */
  lemma {:induction false} TotalIncrement(m: map<string, nat>, names: seq<string>, k: string)
    requires Distinct(names)
    requires forall i :: 0 <= i < |names| ==> names[i] in m
    requires k in m
    ensures Total(m[k := m[k] + 1], names) == Total(m, names) + (if k in names then 1 else 0)
    decreases |names|
  {
    if names != [] {
      assert Distinct(names[1..]) by {
        assert forall i :: 0 <= i < |names[1..]| ==> names[1..][i] == names[i + 1];
      }
      assert k in names <==> k == names[0] || k in names[1..];
      assert k == names[0] ==> k !in names[1..];
      TotalIncrement(m, names[1..], k);
    }
  }

  lemma NamesDistinct(table: Table)
    requires DistinctNames(table)
    ensures Distinct(Names(table))
  {
  }

  // ---------------------------------------------------------------------------
  // Dry run

  /** A dry step leaves folder and summary alone and appends the file's plan, if it is a file. */
  lemma DryStep(st: RunState, name: string, table: Table)
    ensures Step(st, name, table, true).folder == st.folder
    ensures Step(st, name, table, true).summary == st.summary
    ensures Step(st, name, table, true).plans
            == st.plans + (if IsFile(st.folder, name) then [Plan(st.folder, name, table)] else [])
  {
  }

  lemma {:induction false} DryRunFrom(st: RunState, listing: seq<string>, table: Table)
    ensures RunFrom(st, listing, table, true).folder == st.folder
    ensures RunFrom(st, listing, table, true).summary == st.summary
    ensures RunFrom(st, listing, table, true).plans == st.plans + Previews(st.folder, listing, table)
    decreases |listing|
  {
    if listing != [] {
      var name := listing[0];
      var s1 := Step(st, name, table, true);
      DryStep(st, name, table);
      DryRunFrom(s1, listing[1..], table);
      var head := if IsFile(st.folder, name) then [Plan(st.folder, name, table)] else [];
      assert Previews(st.folder, listing, table) == head + Previews(st.folder, listing[1..], table);
      assert st.plans + head + Previews(st.folder, listing[1..], table)
             == st.plans + (head + Previews(st.folder, listing[1..], table));
    }
  }

  /**
   A dry run creates no folder, moves nothing, leaves every counter at zero,
   and reports for each regular file the destination worked out against the
   unchanged folder.
   */
  lemma DryRunChangesNothing(folder: Folder, table: Table, listing: seq<string>)
    requires IsListing(listing, folder)
    ensures Organize(folder, table, true, listing).folder == folder
    ensures Organize(folder, table, true, listing).summary == ZeroSummary(table)
    ensures Organize(folder, table, true, listing).plans == Previews(folder, listing, table)
  {
    DryRunFrom(RunState(folder, ZeroSummary(table), []), listing, table);
  }

  // ---------------------------------------------------------------------------
  // Real run

  /**
   In real mode, the counter of a category grows by the number of listed
   regular files classified into it, and its folder keeps every name it had
   and gains exactly that many new ones.
   */
  lemma {:induction false} RealRunFromCounts(st: RunState, listing: seq<string>, table: Table, c: string)
    requires Ready(st, table)
    requires Distinct(listing)
    requires c in Names(table)
    ensures RunFrom(st, listing, table, false).summary[c] == st.summary[c] + CountInto(listing, st.folder, table, c)
    ensures Contents(st.folder, c) <= Contents(RunFrom(st, listing, table, false).folder, c)
    ensures |Contents(RunFrom(st, listing, table, false).folder, c)|
            == |Contents(st.folder, c)| + CountInto(listing, st.folder, table, c)
    decreases |listing|
  {
    if listing != [] {
      var name := listing[0];
      var s1 := Step(st, name, table, false);
      var rest := listing[1..];
      DistinctTail(listing);
      CountIntoFrame(rest, s1.folder, st.folder, table, c);
      RealRunFromCounts(s1, rest, table, c);
      StepCounts(st, name, table, c);
    }
  }

  /** One real step adds the file to the folder of its category, and to no other. */
  lemma {:induction false} StepCounts(st: RunState, name: string, table: Table, c: string)
    requires Ready(st, table)
    requires c in Names(table)
    ensures var r := Step(st, name, table, false);
            var moved := if IsFile(st.folder, name) && Classify(name, table) == c then 1 else 0;
            && r.summary[c] == st.summary[c] + moved
            && Contents(st.folder, c) <= Contents(r.folder, c)
            && |Contents(r.folder, c)| == |Contents(st.folder, c)| + moved
  {
    var r := Step(st, name, table, false);
    if IsFile(st.folder, name) {
      var p := Plan(st.folder, name, table);
      assert Moved(st, r, p);
      if p.category == c {
        assert Contents(r.folder, c) == Contents(st.folder, c) + {p.dest};
        assert p.dest !in Contents(st.folder, c);
      } else {
        assert c in r.folder && c != p.category;
        assert Contents(r.folder, c) == Contents(st.folder, c);
      }
    } else {
      assert r == st;
    }
  }

  /** In real mode every listed regular file leaves the top level; nothing else does. */
  lemma {:induction false} RealRunFromFiles(st: RunState, listing: seq<string>, table: Table)
    requires Ready(st, table)
    ensures forall k :: IsFile(RunFrom(st, listing, table, false).folder, k) <==> IsFile(st.folder, k) && k !in listing
    decreases |listing|
  {
    if listing != [] {
      var s1 := Step(st, listing[0], table, false);
      RealRunFromFiles(s1, listing[1..], table);
      assert forall k :: k in listing <==> k == listing[0] || k in listing[1..];
    }
  }

  /** In real mode a directory that is not a category folder is left exactly as it was. */
  lemma {:induction false} RealRunFromKeepsDirs(st: RunState, listing: seq<string>, table: Table, d: string)
    requires Ready(st, table)
    requires d in st.folder && st.folder[d].Dir? && d !in Names(table)
    ensures d in RunFrom(st, listing, table, false).folder
    ensures RunFrom(st, listing, table, false).folder[d] == st.folder[d]
    decreases |listing|
  {
    if listing != [] {
      var s1 := Step(st, listing[0], table, false);
      RealRunFromKeepsDirs(s1, listing[1..], table, d);
    }
  }

  /** A real step on a regular file raises exactly the counter of the file's category. */
  lemma {:induction false} RealStepSummary(st: RunState, name: string, table: Table)
    requires Ready(st, table)
    requires IsFile(st.folder, name)
    ensures Classify(name, table) in st.summary
    ensures Step(st, name, table, false).summary
            == st.summary[Classify(name, table) := st.summary[Classify(name, table)] + 1]
  {
    var s1 := Step(st, name, table, false);
    var p := Plan(st.folder, name, table);
    assert Moved(st, s1, p);
    var m := st.summary[p.category := st.summary[p.category] + 1];
    assert s1.summary.Keys == m.Keys;
  }

  /** One real step adds one to the total exactly when it moves a regular file. */
  lemma {:induction false} StepTotal(st: RunState, name: string, table: Table)
    requires Ready(st, table)
    ensures Total(Step(st, name, table, false).summary, Names(table))
            == Total(st.summary, Names(table)) + (if IsFile(st.folder, name) then 1 else 0)
  {
    var s1 := Step(st, name, table, false);
    var names := Names(table);
    if IsFile(st.folder, name) {
      var cat := Classify(name, table);
      RealStepSummary(st, name, table);
      NamesDistinct(table);
      SummaryIncrement(st.summary, s1.summary, names, cat);
    }
  }

  lemma {:induction false} SummaryIncrement(m: map<string, nat>, m2: map<string, nat>, names: seq<string>, k: string)
    requires Distinct(names)
    requires forall i :: 0 <= i < |names| ==> names[i] in m
    requires k in names
    requires k in m && m2 == m[k := m[k] + 1]
    ensures forall i :: 0 <= i < |names| ==> names[i] in m2
    ensures Total(m2, names) == Total(m, names) + 1
  {
    TotalIncrement(m, names, k);
  }

  /** In real mode the total of the counters grows by the number of listed regular files. */
  lemma {:induction false} RealRunFromTotal(st: RunState, listing: seq<string>, table: Table)
    requires Ready(st, table)
    requires Distinct(listing)
    ensures Total(RunFrom(st, listing, table, false).summary, Names(table))
            == Total(st.summary, Names(table)) + CountFiles(listing, st.folder)
    decreases |listing|
  {
    if listing != [] {
      var name := listing[0];
      var s1 := Step(st, name, table, false);
      var rest := listing[1..];
      DistinctTail(listing);
      CountFilesFrame(rest, s1.folder, st.folder);
      RealRunFromTotal(s1, rest, table);
      StepTotal(st, name, table);
    }
  }

  /** The rest of a distinct listing is distinct and does not repeat its head. */
  lemma DistinctTail(listing: seq<string>)
    requires Distinct(listing) && listing != []
    ensures Distinct(listing[1..])
    ensures forall i :: 0 <= i < |listing[1..]| ==> listing[1..][i] != listing[0]
  {
    assert forall i :: 0 <= i < |listing[1..]| ==> listing[1..][i] == listing[i + 1];
  }

  /**
   A real run: each category's counter equals the number of regular files
   classified into it, its folder keeps what it had and gains exactly that
   many names (no move overwrites), and no regular file is left at the top
   level.
   */
  lemma RealRunMovesEveryFile(folder: Folder, table: Table, listing: seq<string>, c: string)
    requires WellFormed(table) && NoFileNamedLikeCategory(folder, table)
    requires IsListing(listing, MakeCategoryDirs(folder, table))
    requires c in Names(table)
    ensures Organize(folder, table, false, listing).summary[c] == CountInto(listing, folder, table, c)
    ensures Contents(folder, c) <= Contents(Organize(folder, table, false, listing).folder, c)
    ensures |Contents(Organize(folder, table, false, listing).folder, c)|
            == |Contents(folder, c)| + Organize(folder, table, false, listing).summary[c]
    ensures forall k :: !IsFile(Organize(folder, table, false, listing).folder, k)
  {
    var start := RunState(MakeCategoryDirs(folder, table), ZeroSummary(table), []);
    MakeCategoryDirsReady(folder, table);
    RealRunFromCounts(start, listing, table, c);
    RealRunFromFiles(start, listing, table);
    CountIntoFrame(listing, start.folder, folder, table, c);
    assert Contents(folder, c) <= Contents(start.folder, c);
    assert |Contents(folder, c)| == |Contents(start.folder, c)|;
  }

  /** The number of files a real run reports as moved is the number of regular files listed. */
  lemma RealRunTotal(folder: Folder, table: Table, listing: seq<string>)
    requires WellFormed(table) && NoFileNamedLikeCategory(folder, table)
    requires IsListing(listing, MakeCategoryDirs(folder, table))
    ensures Total(Organize(folder, table, false, listing).summary, Names(table)) == CountFiles(listing, folder)
  {
    var start := RunState(MakeCategoryDirs(folder, table), ZeroSummary(table), []);
    MakeCategoryDirsReady(folder, table);
    RealRunFromTotal(start, listing, table);
    CountFilesFrame(listing, start.folder, folder);
    ZeroTotal(table, Names(table));
  }

  /**
   A real run on a folder that does not exist yet: `os.makedirs` creates it
   together with the category folders, the listing holds only those, and the
   run ends with every counter at zero and no file anywhere at the top level.
   */
  lemma MissingFolderRealRun(table: Table, listing: seq<string>)
    requires WellFormed(table)
    requires IsListing(listing, MakeCategoryDirs(map[], table))
    ensures forall c :: c in Names(table) ==> Organize(map[], table, false, listing).summary[c] == 0
    ensures forall c :: c in Names(table) ==> c in Organize(map[], table, false, listing).folder
    ensures forall k :: !IsFile(Organize(map[], table, false, listing).folder, k)
  {
    var start := RunState(MakeCategoryDirs(map[], table), ZeroSummary(table), []);
    MakeCategoryDirsReady(map[], table);
    RealRunFromFiles(start, listing, table);
    forall c | c in Names(table)
      ensures Organize(map[], table, false, listing).summary[c] == 0
    {
      RealRunFromCounts(start, listing, table, c);
      CountIntoNoFiles(listing, start.folder, table, c);
    }
  }

  /** Nothing is counted in a folder without regular files. */
  lemma {:induction false} CountIntoNoFiles(listing: seq<string>, folder: Folder, table: Table, c: string)
    requires forall k :: !IsFile(folder, k)
    ensures CountInto(listing, folder, table, c) == 0
    decreases |listing|
  {
    if listing != [] {
      CountIntoNoFiles(listing[1..], folder, table, c);
    }
  }

  lemma {:induction false} ZeroTotal(table: Table, names: seq<string>)
    requires forall i :: 0 <= i < |names| ==> names[i] in Names(table)
    ensures Total(ZeroSummary(table), names) == 0
    decreases |names|
  {
    if names != [] {
      ZeroTotal(table, names[1..]);
    }
  }
}
