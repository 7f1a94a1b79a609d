/** The client's side of a session import: which thread of the ledger is this run's. */
module ImportLedger {
  import opened Wrappers
  import opened StableSort

  type ThreadId = nat

  /** A ledger record; `threadId` and `importedAt` may be missing in what another writer left there. */
  datatype Record = Record(source: string, hash: string, threadId: Option<ThreadId>, importedAt: Option<nat>)

  /** `Number.NEGATIVE_INFINITY` for a record without a time: it sorts below every time. */
  function TimeOf(r: Record): int {
    if r.importedAt.Some? then r.importedAt.value else -1
  }

  // ---------------------------------------------------------------- one source under several names

  /** Where the client runs; on Windows, with the lower-casing of its strings. */
  datatype Platform = Posix | Windows(lower: string -> string)

  const VERBATIM := "\\\\?\\"
  const VERBATIM_SHARE := "\\\\?\\UNC\\"
  const SHARE := "\\\\"

  function Upper(c: char): char {
    if 'a' <= c <= 'z' then c - 'a' + 'A' else c
  }

  /** The pattern `^\\\\\?\\UNC\\` with its letters in either case. */
  predicate IsVerbatimShare(s: string) {
    |s| >= |VERBATIM_SHARE| && forall i :: 0 <= i < |VERBATIM_SHARE| ==> Upper(s[i]) == VERBATIM_SHARE[i]
  }

  function Backslashed(s: string): (r: string)
    ensures |r| == |s| && forall i :: 0 <= i < |s| ==> r[i] == if s[i] == '/' then '\\' else s[i]
  {
    seq(|s|, i requires 0 <= i < |s| => if s[i] == '/' then '\\' else s[i])
  }

  /** `normalizeLedgerPath`: the verbatim prefixes off, backslashes throughout, lower case; Windows only. */
  function NormalizePath(platform: Platform, s: string): string {
    match platform
    case Posix => s
    case Windows(lower) =>
      var unshared := if IsVerbatimShare(s) then SHARE + s[|VERBATIM_SHARE|..] else s;
      var plain := if VERBATIM <= unshared then unshared[|VERBATIM|..] else unshared;
      lower(Backslashed(plain))
  }

  /** `sameSourcePath`: an empty path is nobody's. */
  predicate SameSourcePath(platform: Platform, a: string, b: string) {
    a != "" && b != "" && (a == b || NormalizePath(platform, a) == NormalizePath(platform, b))
  }

  lemma VerbatimShareIsVerbatim(s: string)
    ensures IsVerbatimShare(s) ==> VERBATIM <= s
  {
    if IsVerbatimShare(s) {
      forall i | 0 <= i < |VERBATIM|
        ensures s[i] == VERBATIM[i]
      {
        assert Upper(s[i]) == VERBATIM_SHARE[i];
      }
    }
  }

  lemma PlainFormStays(lower: string -> string, path: string)
    requires !(VERBATIM <= path)
    ensures NormalizePath(Windows(lower), path) == lower(Backslashed(path))
  {
    VerbatimShareIsVerbatim(path);
    hide IsVerbatimShare, Backslashed;
  }

  /** The verbatim form of a drive path names the source that its plain form names. */
  lemma VerbatimPathIsOneSource(lower: string -> string, path: string)
    requires path != "" && !(VERBATIM <= path) && !IsVerbatimShare(VERBATIM + path)
    ensures SameSourcePath(Windows(lower), VERBATIM + path, path)
  {
    PlainFormStays(lower, path);
    hide IsVerbatimShare, Backslashed;
    assert (VERBATIM + path)[|VERBATIM|..] == path;
  }

  /** The verbatim form of a share names the source that its plain form names. */
  lemma VerbatimShareIsOneSource(lower: string -> string, path: string)
    requires !(VERBATIM <= SHARE + path)
    ensures SameSourcePath(Windows(lower), VERBATIM_SHARE + path, SHARE + path)
  {
    PlainFormStays(lower, SHARE + path);
    var share := VERBATIM_SHARE + path;
    assert IsVerbatimShare(share) by {
      assert forall i :: 0 <= i < |VERBATIM_SHARE| ==> share[i] == VERBATIM_SHARE[i];
    }
    hide IsVerbatimShare, Backslashed;
    assert share[|VERBATIM_SHARE|..] == path;
  }

  /**
    * Names without a prefix are one source if and only if they are equal or, on Windows, only slashes and case tell
    * them apart.
    */
  lemma PlainFormsAreOneSourceIff(platform: Platform, a: string, b: string)
    requires a != "" && b != "" && !(VERBATIM <= a) && !(VERBATIM <= b)
    ensures SameSourcePath(platform, a, b) <==>
      a == b || (platform.Windows? && platform.lower(Backslashed(a)) == platform.lower(Backslashed(b)))
  {
    if platform.Windows? {
      PlainFormStays(platform.lower, a);
      PlainFormStays(platform.lower, b);
    }
    hide NormalizePath, Backslashed;
  }

  predicate IsCandidate(platform: Platform, r: Record, source: string) {
    r.threadId.Some? && SameSourcePath(platform, r.source, source)
  }

  function Candidates(platform: Platform, rs: seq<Record>, source: string): seq<Record> {
    if rs == [] then []
    else
      var rest := Candidates(platform, rs[..|rs| - 1], source);
      if IsCandidate(platform, rs[|rs| - 1], source) then rest + [rs[|rs| - 1]] else rest
  }

  function PickImportedThreadId(platform: Platform, rs: seq<Record>, source: string): Option<ThreadId> {
    var ordered := Sort(TimeOf, Candidates(platform, rs, source));
    if ordered == [] then None else ordered[|ordered| - 1].threadId
  }

  // ---------------------------------------------------------------- what the sort and the pick mean

  /** `rs[k]` is a candidate for `source` and the latest of all of them. */
  predicate IsLatestFor(platform: Platform, rs: seq<Record>, source: string, k: nat) {
    && k < |rs| && IsCandidate(platform, rs[k], source)
    && (forall i :: 0 <= i < k && IsCandidate(platform, rs[i], source) ==> TimeOf(rs[i]) <= TimeOf(rs[k]))
    && (forall i :: k < i < |rs| && IsCandidate(platform, rs[i], source) ==> TimeOf(rs[i]) < TimeOf(rs[k]))
  }

  lemma {:induction false} CandidatesAre(platform: Platform, rs: seq<Record>, source: string)
    ensures forall r :: r in Candidates(platform, rs, source) <==> r in rs && IsCandidate(platform, r, source)
    decreases |rs|
  {
    if rs != [] {
      CandidatesAre(platform, rs[..|rs| - 1], source);
      assert rs == rs[..|rs| - 1] + [rs[|rs| - 1]];
    }
  }

  lemma {:induction false} CandidatesKeepLatest(platform: Platform, rs: seq<Record>, source: string,
                                                k: nat) returns (j: nat)
    requires IsLatestFor(platform, rs, source, k)
    ensures IsLatest(TimeOf, Candidates(platform, rs, source), j) && Candidates(platform, rs, source)[j] == rs[k]
    decreases |rs|
  {
    var front, last := rs[..|rs| - 1], rs[|rs| - 1];
    var cs := Candidates(platform, front, source);
    if k == |front| {
      j := |cs|;
      CandidatesAre(platform, front, source);
      forall i | 0 <= i < |cs|
        ensures TimeOf(cs[i]) <= TimeOf(last)
      {
        assert cs[i] in front && IsCandidate(platform, cs[i], source);
        var m :| 0 <= m < |front| && front[m] == cs[i];
        assert rs[m] == cs[i];
      }
    } else {
      j := CandidatesKeepLatest(platform, front, source, k);
    }
  }

  /** The pick, for every ledger: the latest record of this very source, and nothing when the source has no record. */
  lemma PickIsLatestOfSource(platform: Platform, rs: seq<Record>, source: string, k: nat)
    ensures IsLatestFor(platform, rs, source, k) ==> PickImportedThreadId(platform, rs, source) == rs[k].threadId
    ensures (forall r :: r in rs ==> !IsCandidate(platform, r, source)) <==>
      PickImportedThreadId(platform, rs, source) == None
    ensures PickImportedThreadId(platform, rs, source).Some? ==>
      exists r :: r in rs && SameSourcePath(platform, r.source, source)
          && r.threadId == PickImportedThreadId(platform, rs, source)
  {
    hide Sort;
    CandidatesAre(platform, rs, source);
    var cs := Candidates(platform, rs, source);
    if cs != [] {
      SortEnd(TimeOf, cs);
      assert Sort(TimeOf, cs)[|cs| - 1] in cs;
    }
    if IsLatestFor(platform, rs, source, k) {
      var j := CandidatesKeepLatest(platform, rs, source, k);
      SortEndsWithLatest(TimeOf, cs, j);
    } else {
      assert cs == [] <==> forall r :: r in rs ==> !IsCandidate(platform, r, source) by {
        if cs != [] {
          assert cs[0] in cs;
        }
      }
    }
  }
}
