/**
 * The client-side multi-session (`RemoteImhotepMultiSession`): it fans a
 * query out to one remote session per shard group and combines the answers.
 *
 * The remote sessions themselves are not part of this model.  Whatever a
 * session answered to a request is an input: `true`/`false` for "returned a
 * split iterator"/"threw", `Some(n)`/`None` for a regroup that returned `n`
 * groups or ran out of memory.  The merge iterators (`FTGSInterleaver`,
 * `TermLimitedRawFTGSIterator`, the top-terms iterator) are described by the
 * shape of the pipeline they form, not by their merge algorithm.
 */
module RemoteMultiSession {
  import opened Wrappers
  import opened FixedWidth

  /** The question put to one session: a full FTGS query or a subset query. */
  datatype FTGSQuery =
    | Full(intFields: seq<string>, stringFields: seq<string>, termLimit: int, sortStat: int)
    | Subset(intTerms: map<string, seq<int>>, stringTerms: map<string, seq<string>>)

  /** `sessions[sessionIndex].mergeFTGSSplit(..., splitIndex, ...)` (or `mergeSubsetFTGSSplit`). */
  datatype SplitRequest = SplitRequest(sessionIndex: nat, splitIndex: nat, query: FTGSQuery)

  /** One slot of the `mergers` array. */
  datatype SplitSlot = Empty | Open(request: SplitRequest) | Closed(request: SplitRequest)

  /** The iterator handed back to the caller, by shape. */
  datatype FTGSPipeline =
    | SessionIterator(sessionIndex: nat, query: FTGSQuery)
    | Interleaver(splits: seq<SplitRequest>)
    | TermLimited(inner: FTGSPipeline, termLimit: int)
    | TopTerms(inner: FTGSPipeline, termLimit: int, numStats: int, sortStat: int)

  datatype RegroupError = OutOfMemory | NoSuchElement

  /** Split `i` is asked of session `i` with split index `i`. */
  function Requests(n: nat, query: FTGSQuery): (rs: seq<SplitRequest>)
    ensures |rs| == n
    ensures forall i :: 0 <= i < n ==> rs[i].sessionIndex == i && rs[i].splitIndex == i && rs[i].query == query
  {
    seq(n, i requires 0 <= i < n => SplitRequest(i, i, query))
  }

  /** The slots after a failed fan-out: every iterator that was opened has been closed. */
  function ClosedSlots(answers: seq<bool>, query: FTGSQuery): (slots: seq<SplitSlot>)
    ensures |slots| == |answers|
    ensures forall i :: 0 <= i < |answers| ==> !slots[i].Open?
  {
    seq(|answers|, i requires 0 <= i < |answers| =>
      if answers[i] then Closed(SplitRequest(i, i, query)) else Empty)
  }

  predicate AllAnswered(answers: seq<bool>)
  {
    forall i :: 0 <= i < |answers| ==> answers[i]
  }

  /** The outcome of `getFTGSIteratorSplits` / `getSubsetFTGSIteratorSplits`. */
  function SplitsOutcome(answers: seq<bool>, query: FTGSQuery): Result<seq<SplitRequest>, seq<SplitSlot>>
  {
    if AllAnswered(answers) then Ok(Requests(|answers|, query)) else Err(ClosedSlots(answers, query))
  }

  /** The wrappers `getFTGSIterator` puts around the interleaver of all splits. */
  function Wrap(interleaver: FTGSPipeline, termLimit: int, sortStat: int, numStats: int): FTGSPipeline
  {
    if termLimit > 0 then
      if sortStat >= 0 then TopTerms(interleaver, termLimit, numStats, sortStat)
      else TermLimited(interleaver, termLimit)
    else interleaver
  }

  /** The outcome of `getFTGSIterator(intFields, stringFields, termLimit, sortStat)`. */
  function FTGSOutcome(answers: seq<bool>, q: FTGSQuery, numStats: int): Result<FTGSPipeline, seq<SplitSlot>>
    requires q.Full?
  {
    if |answers| == 1 then Ok(SessionIterator(0, q))
    else match SplitsOutcome(answers, q)
      case Ok(splits) => Ok(Wrap(Interleaver(splits), q.termLimit, q.sortStat, numStats))
      case Err(slots) => Err(slots)
  }

  /** The outcome of `getSubsetFTGSIterator`. */
  function SubsetOutcome(answers: seq<bool>, q: FTGSQuery): Result<FTGSPipeline, seq<SplitSlot>>
    requires q.Subset?
  {
    if |answers| == 1 then Ok(SessionIterator(0, q))
    else match SplitsOutcome(answers, q)
      case Ok(splits) => Ok(Interleaver(splits))
      case Err(slots) => Err(slots)
  }

  /** How many terms a pipeline lets through (None: unlimited). */
  function TermCap(p: FTGSPipeline): Option<int>
  {
    match p
    case SessionIterator(_, q) => if q.Full? && q.termLimit > 0 then Some(q.termLimit) else None
    case Interleaver(_) => None
    case TermLimited(_, k) => Some(k)
    case TopTerms(_, k, _, _) => Some(k)
  }

  /** The statistic a pipeline ranks terms by (None: terms are kept in term order). */
  function RankStat(p: FTGSPipeline): Option<int>
  {
    match p
    case SessionIterator(_, q) => if q.Full? && q.termLimit > 0 && q.sortStat >= 0 then Some(q.sortStat) else None
    case Interleaver(_) => None
    case TermLimited(_, _) => None
    case TopTerms(_, _, _, s) => Some(s)
  }

  /** The split requests a pipeline reads from. */
  function Sources(p: FTGSPipeline): seq<SplitRequest>
  {
    match p
    case SessionIterator(_, _) => []
    case Interleaver(splits) => splits
    case TermLimited(inner, _) => Sources(inner)
    case TopTerms(inner, _, _, _) => Sources(inner)
  }

  /**
   * Whatever its shape, a successful `getFTGSIterator` limits the output to
   * `termLimit` terms exactly when `termLimit > 0`, ranks by `sortStat`
   * exactly when in addition `sortStat >= 0`, and with several sessions reads
   * split `i` from session `i`; with one session it is that session's own
   * iterator for the same query.
   */
  lemma FTGSOutcomeMeaning(answers: seq<bool>, q: FTGSQuery, numStats: int)
    requires q.Full?
    requires FTGSOutcome(answers, q, numStats).Ok?
    ensures var p := FTGSOutcome(answers, q, numStats).value;
      && (TermCap(p) == if q.termLimit > 0 then Some(q.termLimit) else None)
      && (RankStat(p) == if q.termLimit > 0 && q.sortStat >= 0 then Some(q.sortStat) else None)
      && (|answers| == 1 ==> p == SessionIterator(0, q))
      && (|answers| != 1 ==> Sources(p) == Requests(|answers|, q))
  {
  }

  /** A fan-out fails exactly when some session threw, and then no split is left open. */
  lemma SplitsOutcomeMeaning(answers: seq<bool>, q: FTGSQuery)
    ensures SplitsOutcome(answers, q).Ok? <==> forall i :: 0 <= i < |answers| ==> answers[i]
    ensures SplitsOutcome(answers, q).Err? ==>
      forall i :: 0 <= i < |answers| ==> !SplitsOutcome(answers, q).error[i].Open?
  {
  }

  /** The largest element (`Collections.max`). */
  function Max(s: seq<int>): (m: int)
    requires |s| > 0
    ensures m in s
    ensures forall i :: 0 <= i < |s| ==> s[i] <= m
  {
    if |s| == 1 then s[0]
    else
      var rest := Max(s[..|s| - 1]);
      if s[|s| - 1] > rest then s[|s| - 1] else rest
  }

  /** The entries that are not null, in order: what the stats builder is given. */
  function Present<S>(s: seq<Option<S>>): seq<S>
  {
    if |s| == 0 then [] else Present(s[..|s| - 1]) + (if s[|s| - 1].Some? then [s[|s| - 1].value] else [])
  }

  /** Present keeps one entry per non-null slot. */
  lemma {:induction false} PresentCount<S>(s: seq<Option<S>>)
    ensures |Present(s)| == |set i | 0 <= i < |s| && s[i].Some?|
  {
    if |s| > 0 {
      var init := s[..|s| - 1];
      PresentCount(init);
      var before := set i | 0 <= i < |init| && init[i].Some?;
      var after := set i | 0 <= i < |s| && s[i].Some?;
      if s[|s| - 1].Some? {
        assert after == before + {|s| - 1};
      } else {
        assert after == before;
      }
    }
  }

  /** Present holds exactly the values of the non-null slots. */
  lemma {:induction false} PresentMembers<S>(s: seq<Option<S>>)
    ensures forall x :: x in Present(s) <==> Some(x) in s
  {
    if |s| > 0 {
      var init := s[..|s| - 1];
      PresentMembers(init);
      assert s == init + [s[|s| - 1]];
      forall x
        ensures x in Present(s) <==> Some(x) in s
      {
        assert Some(x) in s <==> Some(x) in init || s[|s| - 1] == Some(x);
      }
    }
  }

  /**
   * `java.util.concurrent.atomic.AtomicLong`: the temp-file budget, one
   * object shared with the code that spends it, which may change `value` at
   * any time between calls.
   */
  class AtomicLong {
    var value: Int64

    constructor (initial: Int64)
      ensures value == initial
    {
      value := initial;
    }
  }

  class RemoteImhotepMultiSession {
    const numSessions: nat
    const sessionId: string
    const numStats: int
    const localTempFileSizeLimit: Int64
    /** The shared temp-file budget counter; null when the session was given none. */
    const tempFileSizeBytesLeft: AtomicLong?
    /** One answer slot per session, filled by each regroup. */
    const integerBuf: array<int>
    var numGroups: int

    ghost predicate Valid()
      reads this
    {
      integerBuf.Length == numSessions
    }

    /** Stores its arguments; the budget counter is shared, not copied. */
    constructor (numSessions: nat, sessionId: string, numStats: int,
                 localTempFileSizeLimit: Int64, tempFileSizeBytesLeft: AtomicLong?)
      ensures Valid()
      ensures this.numSessions == numSessions && this.sessionId == sessionId && this.numStats == numStats
      ensures this.localTempFileSizeLimit == localTempFileSizeLimit
      ensures this.tempFileSizeBytesLeft == tempFileSizeBytesLeft
    {
      this.numSessions := numSessions;
      this.sessionId := sessionId;
      this.numStats := numStats;
      this.localTempFileSizeLimit := localTempFileSizeLimit;
      this.tempFileSizeBytesLeft := tempFileSizeBytesLeft;
      this.integerBuf := new int[numSessions](_ => 0);
      this.numGroups := 0;
    }

    /**
     * The body shared by both `get*FTGSIteratorSplits`: ask session `i` for
     * split `i`, filling `mergers[i]`; if any session threw, close every
     * iterator already in `mergers` and fail.
     */
    method ExecuteSplits(query: FTGSQuery, answers: seq<bool>) returns (r: Result<seq<SplitRequest>, seq<SplitSlot>>)
      requires |answers| == numSessions
      ensures r == SplitsOutcome(answers, query)
    {
      var mergers := new SplitSlot[numSessions](_ => Empty);
      var failed := false;
      for i := 0 to numSessions
        invariant failed <==> exists j :: 0 <= j < i && !answers[j]
        invariant forall j :: 0 <= j < i ==> mergers[j] == if answers[j] then Open(SplitRequest(j, j, query)) else Empty
        invariant forall j :: i <= j < numSessions ==> mergers[j] == Empty
      {
        if answers[i] {
          mergers[i] := Open(SplitRequest(i, i, query));
        } else {
          failed := true;
        }
      }
      if failed {
        for i := 0 to numSessions
          invariant forall j :: 0 <= j < i ==> mergers[j] == if answers[j] then Closed(SplitRequest(j, j, query)) else Empty
          invariant forall j :: i <= j < numSessions ==> mergers[j] == if answers[j] then Open(SplitRequest(j, j, query)) else Empty
        {
          if mergers[i].Open? {
            mergers[i] := Closed(mergers[i].request);
          }
        }
        assert !AllAnswered(answers);
        assert mergers[..] == ClosedSlots(answers, query);
        return Err(mergers[..]);
      }
      assert forall j :: 0 <= j < numSessions ==> mergers[j] == Open(Requests(numSessions, query)[j]);
      return Ok(Requests(numSessions, query));
    }

    /** `getFTGSIteratorSplits(intFields, stringFields, termLimit, sortStat)`. */
    method GetFTGSIteratorSplits(intFields: seq<string>, stringFields: seq<string>, termLimit: int, sortStat: int,
                                 answers: seq<bool>)
      returns (r: Result<seq<SplitRequest>, seq<SplitSlot>>)
      requires |answers| == numSessions
      ensures r == SplitsOutcome(answers, Full(intFields, stringFields, termLimit, sortStat))
    {
      r := ExecuteSplits(Full(intFields, stringFields, termLimit, sortStat), answers);
    }

    /** `getFTGSIteratorSplits(intFields, stringFields, termLimit)`: no sort statistic. */
    method GetFTGSIteratorSplitsUnsorted(intFields: seq<string>, stringFields: seq<string>, termLimit: int,
                                         answers: seq<bool>)
      returns (r: Result<seq<SplitRequest>, seq<SplitSlot>>)
      requires |answers| == numSessions
      ensures r == SplitsOutcome(answers, Full(intFields, stringFields, termLimit, -1))
    {
      r := GetFTGSIteratorSplits(intFields, stringFields, termLimit, -1, answers);
    }

    /** `getSubsetFTGSIteratorSplits`. */
    method GetSubsetFTGSIteratorSplits(intTerms: map<string, seq<int>>, stringTerms: map<string, seq<string>>,
                                       answers: seq<bool>)
      returns (r: Result<seq<SplitRequest>, seq<SplitSlot>>)
      requires |answers| == numSessions
      ensures r == SplitsOutcome(answers, Subset(intTerms, stringTerms))
    {
      r := ExecuteSplits(Subset(intTerms, stringTerms), answers);
    }

    /**
     * `getFTGSIterator(intFields, stringFields, termLimit, sortStat)`.  With
     * one session, `answers` is not consulted: the call goes straight to it.
     */
    method GetFTGSIterator(intFields: seq<string>, stringFields: seq<string>, termLimit: int, sortStat: int,
                           answers: seq<bool>)
      returns (r: Result<FTGSPipeline, seq<SplitSlot>>)
      requires |answers| == numSessions
      ensures r == FTGSOutcome(answers, Full(intFields, stringFields, termLimit, sortStat), numStats)
    {
      if numSessions == 1 {
        return Ok(SessionIterator(0, Full(intFields, stringFields, termLimit, sortStat)));
      }
      var splits := GetFTGSIteratorSplits(intFields, stringFields, termLimit, sortStat, answers);
      if splits.Err? {
        return Err(splits.error);
      }
      var interleaver := Interleaver(splits.value);
      if termLimit > 0 {
        if sortStat >= 0 {
          interleaver := TopTerms(interleaver, termLimit, numStats, sortStat);
        } else {
          interleaver := TermLimited(interleaver, termLimit);
        }
      }
      return Ok(interleaver);
    }

    /** `getFTGSIterator(intFields, stringFields, termLimit)`: sortStat defaults to -1. */
    method GetFTGSIteratorWithLimit(intFields: seq<string>, stringFields: seq<string>, termLimit: int,
                                    answers: seq<bool>)
      returns (r: Result<FTGSPipeline, seq<SplitSlot>>)
      requires |answers| == numSessions
      ensures r == FTGSOutcome(answers, Full(intFields, stringFields, termLimit, -1), numStats)
    {
      r := GetFTGSIterator(intFields, stringFields, termLimit, -1, answers);
    }

    /** `getFTGSIterator(intFields, stringFields)`: termLimit defaults to 0. */
    method GetFTGSIteratorUnlimited(intFields: seq<string>, stringFields: seq<string>, answers: seq<bool>)
      returns (r: Result<FTGSPipeline, seq<SplitSlot>>)
      requires |answers| == numSessions
      ensures r == FTGSOutcome(answers, Full(intFields, stringFields, 0, -1), numStats)
    {
      r := GetFTGSIteratorWithLimit(intFields, stringFields, 0, answers);
    }

    /** `getSubsetFTGSIterator`: the one session directly, or the bare interleaver of all splits. */
    method GetSubsetFTGSIterator(intTerms: map<string, seq<int>>, stringTerms: map<string, seq<string>>,
                                 answers: seq<bool>)
      returns (r: Result<FTGSPipeline, seq<SplitSlot>>)
      requires |answers| == numSessions
      ensures r == SubsetOutcome(answers, Subset(intTerms, stringTerms))
    {
      if numSessions == 1 {
        return Ok(SessionIterator(0, Subset(intTerms, stringTerms)));
      }
      var splits := GetSubsetFTGSIteratorSplits(intTerms, stringTerms, answers);
      if splits.Err? {
        return Err(splits.error);
      }
      return Ok(Interleaver(splits.value));
    }

    /**
     * `regroupWithProtos`: every session regroups and reports its group
     * count into `integerBuf`; if one ran out of memory the call fails and
     * `numGroups` is untouched, otherwise `numGroups` becomes the largest
     * count (with no sessions at all, `Collections.max` throws).
     */
    method RegroupWithProtos(answers: seq<Option<int>>) returns (r: Result<int, RegroupError>)
      requires Valid() && |answers| == numSessions
      modifies this`numGroups, integerBuf
      ensures Valid()
      ensures forall i :: 0 <= i < numSessions && answers[i].Some? ==> integerBuf[i] == answers[i].value
      ensures (exists i :: 0 <= i < numSessions && answers[i].None?) ==>
        r == Err(OutOfMemory) && numGroups == old(numGroups)
      ensures (forall i :: 0 <= i < numSessions ==> answers[i].Some?) && numSessions == 0 ==>
        r == Err(NoSuchElement) && numGroups == old(numGroups)
      ensures (forall i :: 0 <= i < numSessions ==> answers[i].Some?) && numSessions > 0 ==>
        r == Ok(numGroups) && numGroups == Max(integerBuf[..])
    {
      var oom := false;
      for i := 0 to numSessions
        invariant oom <==> exists j :: 0 <= j < i && answers[j].None?
        invariant numGroups == old(numGroups)
        invariant forall j :: 0 <= j < i && answers[j].Some? ==> integerBuf[j] == answers[j].value
      {
        match answers[i]
        case Some(n) => integerBuf[i] := n;
        case None => oom := true;
      }
      if oom {
        return Err(OutOfMemory);
      }
      if numSessions == 0 {
        return Err(NoSuchElement);
      }
      numGroups := Max(integerBuf[..]);
      return Ok(numGroups);
    }

    /**
     * `getTempFilesBytesWritten`: -1 without a counter or without a positive
     * limit, otherwise the limit minus what is left, in `long` arithmetic.
     */
    function GetTempFilesBytesWritten(): (r: int)
      reads this, tempFileSizeBytesLeft
      ensures IsInt64(r)
      ensures tempFileSizeBytesLeft == null || localTempFileSizeLimit <= 0 ==> r == -1
      ensures tempFileSizeBytesLeft != null && localTempFileSizeLimit > 0 ==>
        WrapInt64(r + tempFileSizeBytesLeft.value) == localTempFileSizeLimit
    {
      if tempFileSizeBytesLeft == null || localTempFileSizeLimit <= 0 then -1
      else WrapInt64(localTempFileSizeLimit - tempFileSizeBytesLeft.value)
    }

    /**
     * `combinePerformanceStats`: null for a null array; otherwise the builder
     * is given every non-null entry, in order (what it adds up is not modelled).
     */
    method CombinePerformanceStats<S>(reset: bool, stats: Option<seq<Option<S>>>) returns (r: Option<seq<S>>)
      ensures stats.None? <==> r.None?
      ensures stats.Some? ==> r.value == Present(stats.value)
    {
      if stats.None? {
        return None;
      }
      var s := stats.value;
      var builder: seq<S> := [];
      for i := 0 to |s|
        invariant builder == Present(s[..i])
      {
        assert s[..i + 1][..i] == s[..i];
        if s[i].Some? {
          builder := builder + [s[i].value];
        }
      }
      assert s[..|s|] == s;
      return Some(builder);
    }
  }

  /** Within the `long` range the written byte count is exactly the part of the budget used. */
  lemma TempFilesBytesWrittenInRange(m: RemoteImhotepMultiSession)
    requires m.tempFileSizeBytesLeft != null && m.localTempFileSizeLimit > 0
    requires 0 <= m.tempFileSizeBytesLeft.value <= m.localTempFileSizeLimit
    ensures 0 <= m.GetTempFilesBytesWritten() <= m.localTempFileSizeLimit
    ensures m.GetTempFilesBytesWritten() + m.tempFileSizeBytesLeft.value == m.localTempFileSizeLimit
  {
  }
}
