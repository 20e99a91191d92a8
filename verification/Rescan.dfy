/**
 The crash-tolerant rescan for past issue requests: a persisted range of Bitcoin heights that is
 extended by new issues, pruned where the node cannot scan, and worked off in adaptive chunks.
 */
module Rescan {
  import opened Prelude

  type IssueId = nat

  datatype Issue = Issue(id: IssueId, opentime: nat, btcHeight: nat)

  // `range` is (start, end), both included.
  datatype Status = Status(newest: nat, range: Option<(nat, nat)>)

  predicate InRange(range: Option<(nat, nat)>, h: nat) {
    range.Some? && range.value.0 <= h <= range.value.1
  }

  // ------------------------------------------------------------------ the three operations

  function AddIssue(s: Status, issue: Issue, tip: nat): Status {
    var begin := if s.range.Some? then Min(s.range.value.0, issue.btcHeight) else issue.btcHeight;
    Status(Max(s.newest, issue.opentime), Some((begin, Max(begin, tip))))
  }

  function AddIssues(s: Status, issues: seq<Issue>, tip: nat): Status {
    if issues == [] then s else AddIssue(AddIssues(s, issues[..|issues| - 1], tip), issues[|issues| - 1], tip)
  }

  function NewIssues(issues: seq<Issue>, newest: nat): (r: seq<Issue>)
    ensures forall i :: i in r <==> i in issues && i.opentime > newest
  {
    if issues == [] then []
    else
      var init, last := NewIssues(issues[..|issues| - 1], newest), issues[|issues| - 1];
      assert issues == issues[..|issues| - 1] + [last];
      if last.opentime > newest then init + [last] else init
  }

  function UpdateOf(s: Status, issues: seq<Issue>, tip: nat): Status {
    AddIssues(s, NewIssues(issues, s.newest), tip)
  }

  function PruneOf(s: Status, pruned: nat): (Status, Option<(nat, nat)>) {
    if s.range.Some? && s.range.value.0 < pruned
    then (s.(range := Some((pruned, s.range.value.1))), Some((s.range.value.0, SatSub(pruned, 1))))
    else (s, None)
  }

  function SatAdd(a: nat, b: nat): nat {
    Min(a + b, U64_MAX)
  }

  /** The chunk to scan now and the status once it is done; `None` when nothing is queued. */
  function ProcessOf(s: Status, maxBlocks: nat): Option<((nat, nat), Status)> {
    if s.range == None then None
    else
      var (start, end) := s.range.value;
      var chunkEnd := Min(end, SatSub(SatAdd(start, maxBlocks), 1));
      Some(((start, chunkEnd), s.(range := if chunkEnd == end then None else Some((chunkEnd + 1, end)))))
  }

  class RescanStatus {
    var newestIssueHeight: nat
    var queuedRescanRange: Option<(nat, nat)>

    constructor (s: Status)
      ensures State() == s
    {
      newestIssueHeight, queuedRescanRange := s.newest, s.range;
    }

    function State(): Status
      reads this
    {
      Status(newestIssueHeight, queuedRescanRange)
    }

    method Update(issues: seq<Issue>, tip: nat)
      modifies this
      ensures State() == UpdateOf(old(State()), issues, tip)
    {
      var retained := NewIssues(issues, newestIssueHeight);
      for i := 0 to |retained|
        invariant State() == AddIssues(old(State()), retained[..i], tip)
      {
        assert retained[..i + 1][..i] == retained[..i];
        var issue := retained[i];
        newestIssueHeight := Max(newestIssueHeight, issue.opentime);
        var begin := match queuedRescanRange case Some((b, _)) => Min(b, issue.btcHeight) case None => issue.btcHeight;
        var end := Max(begin, tip);
        queuedRescanRange := Some((begin, end));
      }
      assert retained[..|retained|] == retained;
    }

    method Prune(pruned: nat) returns (unscannable: Option<(nat, nat)>)
      modifies this
      ensures (State(), unscannable) == PruneOf(old(State()), pruned)
    {
      if queuedRescanRange.Some? {
        var (start, end) := queuedRescanRange.value;
        if start < pruned {
          unscannable := Some((start, SatSub(pruned, 1)));
          queuedRescanRange := Some((pruned, end));
          return;
        }
      }
      return None;
    }

    method ProcessBlocks(maxBlocks: nat) returns (chunk: Option<(nat, nat)>)
      modifies this
      ensures match ProcessOf(old(State()), maxBlocks)
              case None => chunk == None && State() == old(State())
              case Some((c, s)) => chunk == Some(c) && State() == s
    {
      if queuedRescanRange == None {
        return None;
      }
      var (start, end) := queuedRescanRange.value;
      var chunkEnd := Min(end, SatSub(SatAdd(start, maxBlocks), 1));
      if chunkEnd == end {
        queuedRescanRange := None;
      } else {
        queuedRescanRange := Some((chunkEnd + 1, end));
      }
      return Some((start, chunkEnd));
    }
  }

  // ------------------------------------------------------------------ what each operation keeps

  lemma {:induction false} AddIssuesCovers(s: Status, issues: seq<Issue>, tip: nat)
    ensures var s' := AddIssues(s, issues, tip);
            && s'.newest >= s.newest
            && (forall h: nat :: InRange(s.range, h) && h <= tip ==> InRange(s'.range, h))
            && (forall i, h: nat :: 0 <= i < |issues| && issues[i].btcHeight <= h <= tip ==> InRange(s'.range, h))
            && (forall i :: 0 <= i < |issues| ==> s'.newest >= issues[i].opentime)
  {
    if issues != [] {
      var init := issues[..|issues| - 1];
      AddIssuesCovers(s, init, tip);
      var prev, s' := AddIssues(s, init, tip), AddIssues(s, issues, tip);
      forall i, h: nat | 0 <= i < |issues| && issues[i].btcHeight <= h <= tip ensures InRange(s'.range, h) {
        if i < |init| {
          assert init[i] == issues[i];
          assert InRange(prev.range, h);
        }
      }
      forall i | 0 <= i < |issues| ensures s'.newest >= issues[i].opentime {
        assert i < |init| ==> init[i] == issues[i];
      }
    }
  }

  /** `update` never drops a queued height at or below the tip, and queues every height of every
      new issue up to the tip. */
  lemma {:induction false} UpdateCovers(s: Status, issues: seq<Issue>, tip: nat)
    ensures var s' := UpdateOf(s, issues, tip);
            && (forall h: nat :: InRange(s.range, h) && h <= tip ==> InRange(s'.range, h))
            && (forall i, h: nat :: i in issues && i.opentime > s.newest && i.btcHeight <= h <= tip ==>
                  InRange(s'.range, h))
            && (forall i :: i in issues ==> s'.newest >= i.opentime)
  {
    var added := NewIssues(issues, s.newest);
    AddIssuesCovers(s, added, tip);
    forall i, h | i in issues && i.opentime > s.newest && i.btcHeight <= h <= tip
      ensures InRange(UpdateOf(s, issues, tip).range, h)
    {
      assert i in added;
      var k :| 0 <= k < |added| && added[k] == i;
    }
    forall i | i in issues ensures UpdateOf(s, issues, tip).newest >= i.opentime {
      if i.opentime > s.newest {
        assert i in added;
        var k :| 0 <= k < |added| && added[k] == i;
      }
    }
  }

  /** After an update the newest height is exactly the largest opentime seen: no smaller than the old
      one or any issue's, and one of them. */
  lemma {:induction false} UpdateNewest(s: Status, issues: seq<Issue>, tip: nat)
    ensures var newest := UpdateOf(s, issues, tip).newest;
            && newest >= s.newest && (forall i :: i in issues ==> newest >= i.opentime)
            && (newest == s.newest || exists i :: i in issues && i.opentime == newest)
  {
    var added := NewIssues(issues, s.newest);
    UpdateCovers(s, issues, tip);
    AddIssuesCovers(s, added, tip);
    AddIssuesNewest(s, added, tip);
  }

  lemma {:induction false} AddIssuesNewest(s: Status, issues: seq<Issue>, tip: nat)
    ensures var newest := AddIssues(s, issues, tip).newest;
            newest == s.newest || exists i :: i in issues && i.opentime == newest
  {
    if issues != [] {
      var init := issues[..|issues| - 1];
      AddIssuesNewest(s, init, tip);
      assert issues == init + [issues[|issues| - 1]];
    }
  }

  /** The start of the queued range once `issues` have been added: the least height asked for. */
  function LeastStart(range: Option<(nat, nat)>, issues: seq<Issue>): nat
    requires range.Some? || issues != []
  {
    if issues == [] then range.value.0
    else
      var init, last := issues[..|issues| - 1], issues[|issues| - 1];
      if range == None && init == [] then last.btcHeight else Min(LeastStart(range, init), last.btcHeight)
  }

  /** The range an update leaves: it begins at the least height asked for and ends at the tip. */
  lemma {:induction false} AddIssuesRange(s: Status, issues: seq<Issue>, tip: nat)
    requires issues != []
    ensures var start := LeastStart(s.range, issues);
            AddIssues(s, issues, tip).range == Some((start, Max(start, tip)))
  {
    if |issues| > 1 {
      AddIssuesRange(s, issues[..|issues| - 1], tip);
    } else {
      assert issues[..0] == [];
    }
  }

  /** Exactly which queued heights an update keeps, when it has anything new: those not above the end
      it sets. A tip below the one the range was queued with loses the heights between. */
  lemma {:induction false} UpdateKeepsIff(s: Status, issues: seq<Issue>, tip: nat, h: nat)
    requires InRange(s.range, h)
    ensures var added := NewIssues(issues, s.newest);
            InRange(UpdateOf(s, issues, tip).range, h)
            <==> added == [] || h <= Max(LeastStart(s.range, added), tip)
  {
    var added := NewIssues(issues, s.newest);
    if added != [] {
      AddIssuesRange(s, added, tip);
      LeastStartBelow(s.range, added);
    }
  }

  lemma {:induction false} LeastStartBelow(range: Option<(nat, nat)>, issues: seq<Issue>)
    requires range.Some?
    ensures LeastStart(range, issues) <= range.value.0
  {
    if issues != [] {
      LeastStartBelow(range, issues[..|issues| - 1]);
    }
  }

  /** `prune` splits the queued heights between the node and electrs. */
  lemma {:induction false} PruneSplits(s: Status, pruned: nat, h: nat)
    requires s.range.Some? ==> s.range.value.0 <= s.range.value.1
    ensures var (s', cut) := PruneOf(s, pruned);
            && (InRange(s.range, h) ==> InRange(s'.range, h) || (InRange(cut, h) && h < pruned))
            && (InRange(cut, h) <==> s.range.Some? && s.range.value.0 <= h < pruned)
            && s'.newest == s.newest
            && (InRange(s'.range, h) ==> (InRange(s.range, h) && h >= pruned) || cut == None)
            && (s'.range.Some? ==> (s'.range.value.0 <= s'.range.value.1 <==> pruned <= s.range.value.1))
  {
  }

  /** `process_blocks` splits the queued heights into the chunk and the rest. */
  lemma {:induction false} ProcessSplits(s: Status, maxBlocks: nat, h: nat)
    requires ProcessOf(s, maxBlocks).Some?
    ensures var (chunk, s') := ProcessOf(s, maxBlocks).value;
            && (InRange(s.range, h) ==> InRange(Some(chunk), h) || InRange(s'.range, h))
            && (s.range.value.0 <= U64_MAX && (InRange(Some(chunk), h) || InRange(s'.range, h)) ==> InRange(s.range, h))
            && !(InRange(Some(chunk), h) && InRange(s'.range, h))
            && s'.newest == s.newest
  {
  }

  /** A chunk begins where the range does and has the size asked for, or all that is left. */
  lemma {:induction false} ChunkSizeIs(s: Status, maxBlocks: nat)
    requires s.range.Some? && s.range.value.0 <= s.range.value.1 && s.range.value.0 + maxBlocks <= U64_MAX
    requires maxBlocks >= 1
    ensures var ((from, to), _) := ProcessOf(s, maxBlocks).value;
            from == s.range.value.0 && to - from + 1 == Min(maxBlocks, s.range.value.1 - from + 1)
  {
  }

  // ------------------------------------------------------------------ the adaptive chunk loop

  ghost predicate Tiles(chunks: seq<(nat, nat)>, start: nat, end: nat) {
    && chunks != []
    && chunks[0].0 == start && chunks[|chunks| - 1].1 == end
    && (forall i :: 0 <= i < |chunks| ==> chunks[i].0 <= chunks[i].1)
    && (forall i :: 0 < i < |chunks| ==> chunks[i].0 == chunks[i - 1].1 + 1)
  }

  /** Contiguous chunks are disjoint and cover the range exactly. */
  lemma {:induction false} TilesCover(chunks: seq<(nat, nat)>, start: nat, end: nat, h: nat)
    requires Tiles(chunks, start, end)
    ensures start <= h <= end <==> exists i :: 0 <= i < |chunks| && chunks[i].0 <= h <= chunks[i].1
    ensures forall i, j :: (0 <= i < |chunks| && 0 <= j < |chunks|
                            && chunks[i].0 <= h <= chunks[i].1 && chunks[j].0 <= h <= chunks[j].1) ==> i == j
  {
    var last := |chunks| - 1;
    if last > 0 {
      var init := chunks[..last];
      assert chunks[last].0 == chunks[last - 1].1 + 1;
      TilesCover(init, start, chunks[last].0 - 1, h);
      assert forall i :: 0 <= i < last ==> init[i] == chunks[i];
      forall i | 0 <= i < |chunks| && chunks[i].0 <= h <= chunks[i].1 ensures start <= h <= end {
        if i < last {
          assert init[i].0 <= h <= init[i].1;
          TilesOrdered(chunks, last - 1, last);
        } else {
          TilesOrdered(chunks, 0, last);
        }
      }
      if start <= h <= end {
        if h < chunks[last].0 {
          var i :| 0 <= i < |init| && init[i].0 <= h <= init[i].1;
          assert chunks[i].0 <= h <= chunks[i].1;
        } else {
          assert chunks[last].0 <= h <= chunks[last].1;
        }
      }
      forall i, j | 0 <= i < |chunks| && 0 <= j < |chunks|
                    && chunks[i].0 <= h <= chunks[i].1 && chunks[j].0 <= h <= chunks[j].1
        ensures i == j
      {
        if i < j {
          TilesOrdered(chunks, i, j);
        } else if j < i {
          TilesOrdered(chunks, j, i);
        }
      }
    } else {
      assert chunks[0].0 <= h <= chunks[0].1 <==> start <= h <= end;
    }
  }

  lemma {:induction false} TilesOrdered(chunks: seq<(nat, nat)>, i: nat, j: nat)
    requires i < j < |chunks|
    requires forall k :: 0 <= k < |chunks| ==> chunks[k].0 <= chunks[k].1
    requires forall k :: 0 < k < |chunks| ==> chunks[k].0 == chunks[k - 1].1 + 1
    ensures chunks[i].1 < chunks[j].0
    decreases j - i
  {
    if i + 1 < j {
      TilesOrdered(chunks, i, j - 1);
    }
  }

  /** The size asked for in round `k`: doubled after a quick scan, halved after a slow one. */
  function ChunkSize(quick: nat -> bool, k: nat): (size: nat)
    ensures 1 <= size <= U64_MAX
  {
    if k == 0 then 1
    else if quick(k) then Min(ChunkSize(quick, k - 1) * 2, U64_MAX)
    else Max(ChunkSize(quick, k - 1) / 2, 1)
  }

  /** Every chunk but the last has the size asked for. */
  predicate AdaptiveSizes(chunks: seq<(nat, nat)>, quick: nat -> bool) {
    forall k :: 0 <= k < |chunks| - 1 ==> chunks[k].1 + 1 == chunks[k].0 + ChunkSize(quick, k)
  }

  /** The chunk loop of the driver, for any sequence of scan durations: it terminates, and the
      chunks tile the queued range; an inverted range is one inverted chunk. `quick(k)` says whether
      the k-th scan took less than 10 seconds. */
  method RescanInChunks(status: RescanStatus, quick: nat -> bool) returns (chunks: seq<(nat, nat)>)
    requires status.queuedRescanRange.Some? ==>
               status.queuedRescanRange.value.0 <= U64_MAX && status.queuedRescanRange.value.1 < U64_MAX
    modifies status
    ensures status.queuedRescanRange == None && status.newestIssueHeight == old(status.newestIssueHeight)
    ensures AdaptiveSizes(chunks, quick)
    ensures match old(status.queuedRescanRange)
            case None => chunks == []
            case Some((start, end)) => if start <= end then Tiles(chunks, start, end) else chunks == [(start, end)]
  {
    hide Progress, ProcessOf, AdaptiveSizes, Tiles;
    chunks := [];
    var chunkSize := 1;
    ghost var range := status.queuedRescanRange;
    ProgressStarts(range, quick);
    while true
      invariant chunkSize == ChunkSize(quick, |chunks|)
      invariant status.newestIssueHeight == old(status.newestIssueHeight)
      invariant Progress(range, status.queuedRescanRange, chunks, quick)
      decreases Left(status.queuedRescanRange)
    {
      ghost var before := status.State();
      var chunk := status.ProcessBlocks(chunkSize);
      ProgressStep(range, before, chunks, quick);
      if chunk == None {
        break;
      }
      chunks := chunks + [chunk.value];
      if quick(|chunks|) {
        chunkSize := Min(chunkSize * 2, U64_MAX);
      } else {
        chunkSize := Max(chunkSize / 2, 1);
      }
    }
    ProgressEnds(range, chunks, quick);
  }

  /** Heights still queued; an inverted range counts as one. */
  function Left(rest: Option<(nat, nat)>): nat {
    if rest == None then 0 else Max(1, rest.value.1 - rest.value.0 + 1)
  }

  /** What has been done of `range` so far: the chunks tile it up to where `rest` begins. */
  ghost predicate Progress(range: Option<(nat, nat)>, rest: Option<(nat, nat)>, chunks: seq<(nat, nat)>,
                           quick: nat -> bool)
  {
    && AdaptiveSizes(chunks, quick)
    && match rest
       case Some((start, end)) =>
         && range.Some? && start <= U64_MAX && end < U64_MAX && end == range.value.1
         && (if chunks == [] then start == range.value.0
             else
               && range.value.0 < start <= end && Tiles(chunks, range.value.0, start - 1)
               && chunks[|chunks| - 1].1 + 1 == chunks[|chunks| - 1].0 + ChunkSize(quick, |chunks| - 1))
       case None =>
         if range == None then chunks == []
         else if range.value.0 <= range.value.1 then Tiles(chunks, range.value.0, range.value.1)
         else chunks == [range.value]
  }

  lemma {:induction false} ProgressStarts(range: Option<(nat, nat)>, quick: nat -> bool)
    requires range.Some? ==> range.value.0 <= U64_MAX && range.value.1 < U64_MAX
    ensures Progress(range, range, [], quick)
  {
  }

  lemma {:induction false} ProgressEnds(range: Option<(nat, nat)>, chunks: seq<(nat, nat)>, quick: nat -> bool)
    requires Progress(range, None, chunks, quick)
    ensures AdaptiveSizes(chunks, quick)
    ensures match range
            case None => chunks == []
            case Some((start, end)) => if start <= end then Tiles(chunks, start, end) else chunks == [(start, end)]
  {
    hide Tiles, AdaptiveSizes;
  }

  lemma {:induction false} ProgressStep(range: Option<(nat, nat)>, s: Status, chunks: seq<(nat, nat)>,
                                        quick: nat -> bool)
    requires Progress(range, s.range, chunks, quick)
    ensures match ProcessOf(s, ChunkSize(quick, |chunks|))
            case None => s.range == None
            case Some((chunk, s')) =>
              Progress(range, s'.range, chunks + [chunk], quick) && Left(s'.range) < Left(s.range)
              && s'.newest == s.newest
  {
    hide ChunkSize;
    if s.range.Some? {
      var (chunk, s') := ProcessOf(s, ChunkSize(quick, |chunks|)).value;
      var more := chunks + [chunk];
      assert forall k :: 0 <= k < |chunks| ==> more[k] == chunks[k];
      assert chunks != [] && s.range.value.0 <= chunk.1 ==> Tiles(more, range.value.0, chunk.1);
      assert chunks == [] && s.range.value.0 <= chunk.1 ==> Tiles(more, range.value.0, chunk.1);
    }
  }

  /** Some chunk size finishes a range exactly when it ends below the largest `usize`: there the
      saturating end of a chunk never reaches it. */
  lemma {:induction false} LastChunkIff(s: Status)
    requires s.range.Some? && s.range.value.0 <= U64_MAX && s.range.value.1 <= U64_MAX
    ensures (exists maxBlocks: nat :: maxBlocks <= U64_MAX && ProcessOf(s, maxBlocks).value.1.range == None)
            <==> s.range.value.1 < U64_MAX
  {
    assert s.range.value.1 < U64_MAX ==> ProcessOf(s, U64_MAX).value.1.range == None;
  }

  /** A prune height above the queued end inverts the range, and the one chunk left is inverted too. */
  lemma {:induction false} InvertedRangeYieldsInvertedChunk(s: Status, pruned: nat, maxBlocks: nat)
    requires s.range.Some? && s.range.value.0 <= s.range.value.1 < U64_MAX && maxBlocks >= 1
    ensures var s' := PruneOf(s, pruned).0;
            var chunk := ProcessOf(s', maxBlocks).value.0;
            chunk.0 <= chunk.1 <==> pruned <= s.range.value.1
  {
  }

  // ------------------------------------------------------------------ runs that may stop anywhere

  datatype Phase =
    | Stopped
    | Imported(list: seq<Issue>, s: Status)
    | Planned(list: seq<Issue>, s: Status, cut: Option<(nat, nat)>, pruned: nat, tip: nat)
    | ToStore(list: seq<Issue>, s: Status, tip: nat)
    | Looping(s: Status)
    | Scanning(s: Status, chunk: (nat, nat))
    | Scanned(s: Status)

  // `disk`: the stored status. `keys`: issues whose key the wallet has. `covered`: heights scanned
  // for an issue, by the node or by electrs. `recorded`: the tip each issue was queued up to.
  // `listed`: the issues of every run that has stored its status.
  datatype World = World(disk: Status, tip: nat, keys: set<IssueId>, covered: set<(IssueId, nat)>,
                         issues: map<IssueId, Issue>, recorded: map<IssueId, nat>, listed: set<Issue>, phase: Phase)

  datatype Step =
    | NewBlock
    | NewIssue(issue: Issue)
    | Begin(list: seq<Issue>, imported: set<IssueId>)
    | Plan(pruned: nat)
    | Electrs(ok: bool)
    | Store
    | NextChunk(size: nat)
    | ScanChunk(ok: bool)
    | StoreProgress
    | Crash

  /** The issues of the run: the parachain reports every issue of the vault, once recorded or not. */
  ghost predicate Lists(list: seq<Issue>, w: World) {
    && (forall i :: i in list ==> i.id in w.issues && w.issues[i.id] == i)
    && (forall id :: id in w.recorded ==> id in w.issues && w.issues[id] in list)
  }

  ghost predicate Enabled(w: World, step: Step) {
    match step
    case NewBlock => true
    case NewIssue(issue) => issue.id !in w.issues
    case Begin(list, imported) =>
      && w.phase.Stopped? && Lists(list, w)
      && forall id :: id in imported ==> exists i :: i in list && i.id == id
    case Plan(_) => w.phase.Imported?
    case Electrs(_) => w.phase.Planned?
    case Store => w.phase.ToStore?
    case NextChunk(size) => w.phase.Looping? && size >= 1
    case ScanChunk(_) => w.phase.Scanning?
    case StoreProgress => w.phase.Scanned?
    case Crash => true
  }

  /** The issues a run records when it first stores its status. */
  function NewlyRecorded(w: World, list: seq<Issue>, tip: nat): map<IssueId, nat> {
    map id | id in (set i | i in NewIssues(list, w.disk.newest) :: i.id) && id in w.keys :: tip
  }

  function ScannedBlocks(keys: set<IssueId>, chunk: (nat, nat)): set<(IssueId, nat)> {
    set id, h | id in keys && chunk.0 <= h <= chunk.1 :: (id, h)
  }

  /** The electrs scan looks up the addresses of all issues that start below the pruned height. */
  function ElectrsScanned(list: seq<Issue>, pruned: nat): set<(IssueId, nat)> {
    set i, h | i in list && i.btcHeight < pruned && 0 <= h < pruned :: (i.id, h)
  }

  function After(w: World, step: Step): World {
    match (step, w.phase)
    case (NewBlock, _) => w.(tip := w.tip + 1)
    case (NewIssue(issue), _) => w.(issues := w.issues[issue.id := issue])
    case (Begin(list, imported), _) => w.(keys := w.keys + imported, phase := Imported(list, w.disk))
    case (Plan(pruned), Imported(list, s)) =>
      var (s', cut) := PruneOf(UpdateOf(s, list, w.tip), pruned);
      w.(phase := Planned(list, s', cut, pruned, w.tip))
    case (Electrs(ok), Planned(list, s, cut, pruned, tip)) =>
      if cut == None then w.(phase := ToStore(list, s, tip))
      else if ok then w.(covered := w.covered + ElectrsScanned(list, pruned), phase := ToStore(list, s, tip))
      else w.(phase := Stopped)
    case (Store, ToStore(list, s, tip)) =>
      w.(disk := s, recorded := w.recorded + NewlyRecorded(w, list, tip), listed := w.listed + (set i | i in list),
         phase := Looping(s))
    case (NextChunk(size), Looping(s)) =>
      (match ProcessOf(s, size)
       case None => w.(phase := Stopped)
       case Some((chunk, s')) => w.(phase := Scanning(s', chunk)))
    case (ScanChunk(ok), Scanning(s, chunk)) =>
      if ok then w.(covered := w.covered + ScannedBlocks(w.keys, chunk), phase := Scanned(s)) else w.(phase := Stopped)
    case (StoreProgress, Scanned(s)) => w.(disk := s, phase := Looping(s))
    case (_, _) => w.(phase := Stopped)
  }

  /** Every height an issue was recorded for is covered or still queued in `range` or `extra`. */
  ghost predicate Safe(w: World, id: IssueId, tip: nat, range: Option<(nat, nat)>, extra: Option<(nat, nat)>) {
    id in w.issues &&
    forall h :: w.issues[id].btcHeight <= h <= tip ==> (id, h) in w.covered || InRange(range, h) || InRange(extra, h)
  }

  /** New issues of the run in progress are queued in full. */
  ghost predicate Queued(w: World, list: seq<Issue>, tip: nat, range: Option<(nat, nat)>, extra: Option<(nat, nat)>) {
    forall i :: i in NewIssues(list, w.disk.newest) ==>
      i.id in w.issues && w.issues[i.id] == i && Safe(w, i.id, tip, range, extra)
  }

  ghost predicate AllSafe(w: World, range: Option<(nat, nat)>, extra: Option<(nat, nat)>) {
    forall id :: id in w.recorded ==> Safe(w, id, w.recorded[id], range, extra)
  }

  /** The newest height is that of an issue among `listed`, or still the initial one. */
  ghost predicate NewestListed(newest: nat, listed: set<Issue>) {
    newest == 0 || exists i :: i in listed && i.opentime == newest
  }

  /** The status of a run in progress has a newest height it can account for. */
  ghost predicate NewestInv(w: World) {
    && NewestListed(w.disk.newest, w.listed)
    && match w.phase
       case Stopped => true
       case Imported(_, s) => s == w.disk
       case Planned(list, s, _, _, _) => NewestListed(s.newest, w.listed + (set i | i in list))
       case ToStore(list, s, _) => NewestListed(s.newest, w.listed + (set i | i in list))
       case Looping(s) => s.newest == w.disk.newest
       case Scanning(s, _) => s.newest == w.disk.newest
       case Scanned(s) => s.newest == w.disk.newest
  }

  lemma {:induction false} StepKeepsNewest(w: World, step: Step)
    requires NewestInv(w) && Enabled(w, step)
    ensures NewestInv(After(w, step))
  {
    if step.Plan? {
      var list, s := w.phase.list, w.phase.s;
      UpdateNewest(s, list, w.tip);
      var newest := UpdateOf(s, list, w.tip).newest;
      var both := w.listed + (set i | i in list);
      if newest != s.newest {
        var i :| i in list && i.opentime == newest;
        assert i in both;
      } else if newest != 0 {
        var i :| i in w.listed && i.opentime == newest;
        assert i in both;
      }
    }
  }

  ghost predicate SafeInv(w: World) {
    && (forall id :: id in w.issues ==> w.issues[id].id == id)
    && (forall id :: id in w.recorded ==> id in w.keys && w.recorded[id] <= w.tip)
    && AllSafe(w, w.disk.range, None)
    && match w.phase
       case Stopped => true
       case Imported(list, s) => s == w.disk && Lists(list, w)
       case Planned(list, s, cut, pruned, tip) =>
         && Lists(list, w) && tip <= w.tip
         && AllSafe(w, s.range, cut) && Queued(w, list, tip, s.range, cut)
         && (cut.Some? ==> cut.value.1 < pruned)
       case ToStore(list, s, tip) =>
         Lists(list, w) && tip <= w.tip && AllSafe(w, s.range, None) && Queued(w, list, tip, s.range, None)
       case Looping(s) => s == w.disk
       case Scanning(s, chunk) => AllSafe(w, s.range, Some(chunk))
       case Scanned(s) => AllSafe(w, s.range, None)
  }

  ghost predicate Inv(w: World) {
    NewestInv(w) && SafeInv(w)
  }

  lemma {:induction false} PlanKeeps(w: World, pruned: nat)
    requires SafeInv(w) && w.phase.Imported?
    ensures SafeInv(After(w, Plan(pruned)))
  {
    var list, s := w.phase.list, w.phase.s;
    var u := UpdateOf(s, list, w.tip);
    var (s', cut) := PruneOf(u, pruned);
    var w' := After(w, Plan(pruned));
    UpdateCovers(s, list, w.tip);
    forall id | id in w.recorded ensures Safe(w', id, w.recorded[id], s'.range, cut) {
      forall h | w.issues[id].btcHeight <= h <= w.recorded[id]
        ensures (id, h) in w.covered || InRange(s'.range, h) || InRange(cut, h)
      {
        assert Safe(w, id, w.recorded[id], w.disk.range, None);
      }
    }
    forall i | i in NewIssues(list, w.disk.newest) ensures Safe(w', i.id, w.tip, s'.range, cut) {
      assert i in list;
      forall h | i.btcHeight <= h <= w.tip ensures InRange(s'.range, h) || InRange(cut, h) {
        assert InRange(u.range, h);
      }
    }
  }

  lemma {:induction false} ElectrsKeeps(w: World, ok: bool)
    requires SafeInv(w) && w.phase.Planned?
    ensures SafeInv(After(w, Electrs(ok)))
  {
    var w' := After(w, Electrs(ok));
    var list, s, cut, pruned, tip := w.phase.list, w.phase.s, w.phase.cut, w.phase.pruned, w.phase.tip;
    if w'.phase.ToStore? {
      forall id, t | id in w.issues && w.issues[id] in list && Safe(w, id, t, s.range, cut)
        ensures Safe(w', id, t, s.range, None)
      {
        forall h | w.issues[id].btcHeight <= h <= t ensures (id, h) in w'.covered || InRange(s.range, h) {
          if InRange(cut, h) {
            assert w.issues[id].btcHeight < pruned && h < pruned;
            assert (w.issues[id].id, h) in ElectrsScanned(list, pruned);
          }
        }
      }
      forall i | i in NewIssues(list, w.disk.newest) ensures Safe(w', i.id, tip, s.range, None) {
        assert i in list && w.issues[i.id] == i;
        assert Safe(w, i.id, tip, s.range, cut);
      }
      forall id | id in w.recorded ensures Safe(w', id, w.recorded[id], s.range, None) {
        assert Safe(w, id, w.recorded[id], s.range, cut);
      }
    }
    assert forall id, t, r, x :: Safe(w, id, t, r, x) ==> Safe(w', id, t, r, x);
  }

  lemma {:induction false} StoreKeeps(w: World)
    requires SafeInv(w) && w.phase.ToStore?
    ensures SafeInv(After(w, Store))
  {
    var w' := After(w, Store);
    var list, s, tip := w.phase.list, w.phase.s, w.phase.tip;
    var added := NewlyRecorded(w, list, tip);
    forall id | id in w'.recorded
      ensures id in w'.keys && w'.recorded[id] <= w'.tip && Safe(w', id, w'.recorded[id], s.range, None)
    {
      if id in added {
        var i :| i in NewIssues(list, w.disk.newest) && i.id == id;
        assert Safe(w, i.id, tip, s.range, None);
      } else {
        assert Safe(w, id, w.recorded[id], s.range, None);
      }
    }
  }

  lemma {:induction false} NextChunkKeeps(w: World, size: nat)
    requires SafeInv(w) && w.phase.Looping? && size >= 1
    ensures SafeInv(After(w, NextChunk(size)))
  {
    var w' := After(w, NextChunk(size));
    if w'.phase.Scanning? {
      forall id | id in w.recorded ensures Safe(w', id, w.recorded[id], w'.phase.s.range, Some(w'.phase.chunk)) {
        assert Safe(w, id, w.recorded[id], w.disk.range, None);
      }
    }
  }

  lemma {:induction false} ScanKeeps(w: World, ok: bool)
    requires SafeInv(w) && w.phase.Scanning?
    ensures SafeInv(After(w, ScanChunk(ok)))
  {
    var w' := After(w, ScanChunk(ok));
    var s, chunk := w.phase.s, w.phase.chunk;
    forall id | id in w.recorded ensures Safe(w', id, w.recorded[id], w.disk.range, None) {
      assert Safe(w, id, w.recorded[id], w.disk.range, None);
    }
    if ok {
      forall id | id in w.recorded ensures Safe(w', id, w.recorded[id], s.range, None) {
        assert Safe(w, id, w.recorded[id], s.range, Some(chunk));
        forall h | w.issues[id].btcHeight <= h <= w.recorded[id] ensures (id, h) in w'.covered || InRange(s.range, h) {
          if InRange(Some(chunk), h) {
            assert (id, h) in ScannedBlocks(w.keys, chunk);
          }
        }
      }
    }
  }

  lemma {:induction false} NewIssueKeeps(w: World, issue: Issue)
    requires SafeInv(w) && issue.id !in w.issues
    ensures SafeInv(After(w, NewIssue(issue)))
  {
    var w' := After(w, NewIssue(issue));
    assert forall id, t, r, x :: Safe(w, id, t, r, x) ==> Safe(w', id, t, r, x);
  }

  lemma {:induction false} StepKeepsInv(w: World, step: Step)
    requires Inv(w) && Enabled(w, step)
    ensures Inv(After(w, step))
  {
    hide NewestInv;
    StepKeepsNewest(w, step);
    StepKeepsSafe(w, step);
  }

  lemma {:induction false} StepKeepsSafe(w: World, step: Step)
    requires SafeInv(w) && Enabled(w, step)
    ensures SafeInv(After(w, step))
  {
    match step
    case NewBlock => assert forall id, t, r, x :: Safe(w, id, t, r, x) ==> Safe(After(w, step), id, t, r, x);
    case NewIssue(issue) => NewIssueKeeps(w, issue);
    case Begin(_, _) => assert forall id, t, r, x :: Safe(w, id, t, r, x) ==> Safe(After(w, step), id, t, r, x);
    case Plan(pruned) => PlanKeeps(w, pruned);
    case Electrs(ok) => ElectrsKeeps(w, ok);
    case Store => StoreKeeps(w);
    case NextChunk(size) => NextChunkKeeps(w, size);
    case ScanChunk(ok) => ScanKeeps(w, ok);
    case StoreProgress => assert forall id, t, r, x :: Safe(w, id, t, r, x) ==> Safe(After(w, step), id, t, r, x);
    case Crash => assert forall id, t, r, x :: Safe(w, id, t, r, x) ==> Safe(After(w, step), id, t, r, x);
  }

  ghost predicate ValidRun(w: World, steps: seq<Step>)
    decreases |steps|
  {
    steps == [] || (Enabled(w, steps[0]) && ValidRun(After(w, steps[0]), steps[1..]))
  }

  function Final(w: World, steps: seq<Step>): World
    decreases |steps|
  {
    if steps == [] then w else Final(After(w, steps[0]), steps[1..])
  }

  /** Main result: over any sequence of runs, each stopped anywhere, every height from a recorded
      issue's start to the tip at recording has been scanned for that issue or is still in the
      stored range; so when nothing is stored as queued, all of it has been scanned. */
  lemma {:induction false} NothingIsLost(w: World, steps: seq<Step>)
    requires Inv(w) && ValidRun(w, steps)
    ensures var w' := Final(w, steps);
            && Inv(w')
            && (forall id, h ::
                  id in w'.recorded && id in w'.issues && w'.issues[id].btcHeight <= h <= w'.recorded[id] ==>
                  (id, h) in w'.covered || InRange(w'.disk.range, h))
    decreases |steps|
  {
    if steps != [] {
      StepKeepsInv(w, steps[0]);
      NothingIsLost(After(w, steps[0]), steps[1..]);
    } else {
      forall id, h | id in w.recorded && id in w.issues && w.issues[id].btcHeight <= h <= w.recorded[id]
        ensures (id, h) in w.covered || InRange(w.disk.range, h)
      {
        assert Safe(w, id, w.recorded[id], w.disk.range, None);
      }
    }
  }

  /** Over any runs, the stored newest height is that of an issue some stored run has listed, or 0. */
  lemma {:induction false} NewestIsListed(w: World, steps: seq<Step>)
    requires Inv(w) && ValidRun(w, steps)
    ensures NewestListed(Final(w, steps).disk.newest, Final(w, steps).listed)
  {
    NothingIsLost(w, steps);
  }

  /** When the first status of a run is stored, every issue of the run whose key was imported is
      recorded, provided issues not recorded before opened after all those listed by earlier runs. */
  lemma {:induction false} StoreRecordsAll(w: World, i: Issue)
    requires Inv(w) && w.phase.ToStore? && i in w.phase.list && i.id in w.keys
    requires i.id in w.recorded || (i.opentime > 0 && forall j :: j in w.listed ==> j.opentime < i.opentime)
    ensures i.id in After(w, Store).recorded
  {
    if i.id !in w.recorded {
      assert i.opentime > w.disk.newest;
      assert i in NewIssues(w.phase.list, w.disk.newest);
      assert i.id in NewlyRecorded(w, w.phase.list, w.phase.tip);
    }
  }

  lemma {:induction false} InitialIsGood(tip: nat)
    ensures Inv(World(Status(0, None), tip, {}, {}, map[], map[], {}, Stopped))
  {
  }
}
