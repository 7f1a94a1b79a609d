/** Why a Codex run was skipped: tagging an error with a reason and metadata, and reading the reason back. */
module SkipTaxonomy {
  import opened Wrappers

  datatype Reason = Timeout | RetryBudgetExceeded | ContextTooLarge | OtherReason

  /**
    * An error as the classifier sees it. `codeSaysTimeout` stands for its code, name and exit code,
    * the two message flags for what the message patterns match.
    */
  datatype Err = Err(
    skipReason: Option<Reason>,
    threadId: Option<string>,
    retryInfo: Option<map<string, string>>,
    codeSaysTimeout: bool,
    messageSaysTimeout: bool,
    messageSaysContext: bool)

  datatype Metadata = Metadata(threadId: Option<string>, retryInfo: Option<map<string, string>>)

  predicate IsTimeoutLike(e: Err) {
    e.skipReason == Some(Timeout) || e.codeSaysTimeout || e.messageSaysTimeout
  }

  predicate IsRetryBudgetExceeded(e: Err) {
    e.skipReason == Some(RetryBudgetExceeded)
  }

  predicate IsContextTooLarge(e: Err) {
    e.skipReason == Some(ContextTooLarge) || e.messageSaysContext
  }

  function Classify(e: Err): Option<Reason> {
    if IsRetryBudgetExceeded(e) then Some(RetryBudgetExceeded)
    else if IsTimeoutLike(e) then Some(Timeout)
    else if IsContextTooLarge(e) then Some(ContextTooLarge)
    else None
  }

  function Entries(info: Option<map<string, string>>): map<string, string> {
    if info.Some? then info.value else map[]
  }

  /** The first id that is given; an empty one is given, but then not used. */
  function ResolvedThread(e: Err, m: Metadata): Option<string> {
    var id := if m.threadId.Some? then m.threadId else e.threadId;
    if id == Some("") then None else id
  }

  function MergedInfo(e: Err, m: Metadata): map<string, string> {
    var merged := Entries(e.retryInfo) + Entries(m.retryInfo);
    var id := ResolvedThread(e, m);
    if id.Some? then merged["threadId" := id.value] else merged
  }

  function Tag(e: Err, reason: Reason, m: Metadata): Err {
    var id := ResolvedThread(e, m);
    var info := MergedInfo(e, m);
    e.(skipReason := Some(reason),
       threadId := if id.Some? then id else e.threadId,
       retryInfo := if info != map[] then Some(info) else e.retryInfo)
  }

  /** What is thrown need not be an error; then a new one is made of its message alone. */
  function AsError(e: Err, isError: bool): Err {
    if isError then e else Err(None, None, None, false, e.messageSaysTimeout, e.messageSaysContext)
  }

  class CodexSkipError {
    var skipReason: Option<Reason>
    var threadId: Option<string>
    var retryInfo: Option<map<string, string>>
    const codeSaysTimeout: bool
    const messageSaysTimeout: bool
    const messageSaysContext: bool

    ghost function Value(): Err
      reads this
    {
      Err(skipReason, threadId, retryInfo, codeSaysTimeout, messageSaysTimeout, messageSaysContext)
    }

    constructor (thrown: Err, isError: bool)
      ensures Value() == AsError(thrown, isError)
    {
      if isError {
        skipReason, threadId, retryInfo := thrown.skipReason, thrown.threadId, thrown.retryInfo;
        codeSaysTimeout := thrown.codeSaysTimeout;
      } else {
        skipReason, threadId, retryInfo := None, None, None;
        codeSaysTimeout := false;
      }
      messageSaysTimeout, messageSaysContext := thrown.messageSaysTimeout, thrown.messageSaysContext;
    }

    method WithMetadata(reason: Reason, m: Metadata)
      modifies this
      ensures Value() == Tag(old(Value()), reason, m)
    {
      skipReason := Some(reason);
      var id := if m.threadId.Some? then m.threadId else threadId;
      var merged := Entries(retryInfo) + Entries(m.retryInfo);
      if id.Some? && id.value != "" {
        threadId := id;
        merged := merged["threadId" := id.value];
      }
      if merged != map[] {
        retryInfo := Some(merged);
      }
    }
  }

  // ---------------------------------------------------------------- tag, then classify

  datatype Tagging = Tagging(reason: Reason, metadata: Metadata)

  function TagAll(e: Err, tags: seq<Tagging>): Err
    decreases |tags|
  {
    if tags == [] then e
    else Tag(TagAll(e, tags[..|tags| - 1]), tags[|tags| - 1].reason, tags[|tags| - 1].metadata)
  }

  lemma {:induction false} TagsKeepEvidence(e: Err, tags: seq<Tagging>)
    ensures var after := TagAll(e, tags);
      && after.codeSaysTimeout == e.codeSaysTimeout && after.messageSaysTimeout == e.messageSaysTimeout
      && after.messageSaysContext == e.messageSaysContext
      && after.skipReason == if tags == [] then e.skipReason else Some(tags[|tags| - 1].reason)
    decreases |tags|
  {
    if tags != [] {
      TagsKeepEvidence(e, tags[..|tags| - 1]);
    }
  }

  /**
    * The last of any sequence of tags is what is read back: always for a retry budget or a timeout, and for a
    * context that is too large if and only if nothing about the error itself looks like a timeout.
    */
  lemma LastTagIsReadBack(e: Err, tags: seq<Tagging>)
    requires tags != []
    ensures var last := tags[|tags| - 1].reason;
      && (last.RetryBudgetExceeded? || last.Timeout? ==> Classify(TagAll(e, tags)) == Some(last))
      && (last.ContextTooLarge? ==>
            (Classify(TagAll(e, tags)) == Some(last) <==> !e.codeSaysTimeout && !e.messageSaysTimeout))
  {
    TagsKeepEvidence(e, tags);
  }

  /** A thrown value that is no error keeps only its message: code, reason, thread and retry info are gone. */
  lemma OtherValuesKeepTheirMessageOnly(e: Err, tags: seq<Tagging>, key: string)
    ensures TagAll(AsError(e, true), tags) == TagAll(e, tags)
    ensures var after := TagAll(AsError(e, false), tags);
      && (tags == [] ==>
            && after.threadId.None? && after.retryInfo.None?
            && Classify(after) == (if e.messageSaysTimeout then Some(Timeout)
                                   else if e.messageSaysContext then Some(ContextTooLarge) else None))
      && (tags != [] && tags[|tags| - 1].reason.ContextTooLarge? ==>
            (Classify(after) == Some(ContextTooLarge) <==> !e.messageSaysTimeout))
      && ((forall i :: 0 <= i < |tags| ==> tags[i].metadata.threadId in {None, Some("")}) ==> after.threadId.None?)
      && ((forall i :: 0 <= i < |tags| ==> ValueOf(tags[i].metadata.retryInfo, key).None?) && key != "threadId" ==>
            ValueOf(after.retryInfo, key).None?)
  {
    var plain := AsError(e, false);
    TagsKeepEvidence(plain, tags);
    RetryInfoIsRightBiased(plain, tags, key);
    NothingGiven(plain, tags, key);
  }

  lemma {:induction false} NothingGiven(e: Err, tags: seq<Tagging>, key: string)
    ensures (forall i :: 0 <= i < |tags| ==> tags[i].metadata.threadId in {None, Some("")}) ==>
      LatestThread(e, tags) == e.threadId
    ensures (forall i :: 0 <= i < |tags| ==> ValueOf(tags[i].metadata.retryInfo, key).None?) && key != "threadId" ==>
      LatestValue(e, tags, key) == ValueOf(e.retryInfo, key)
    decreases |tags|
  {
    if tags != [] {
      NothingGiven(e, tags[..|tags| - 1], key);
    }
  }

  predicate Named(id: Option<string>) {
    id.Some? && id.value != ""
  }

  /** The latest id that was given and not empty, or the one the error had. */
  function LatestThread(e: Err, tags: seq<Tagging>): Option<string>
    decreases |tags|
  {
    if tags == [] then e.threadId
    else
      var given := tags[|tags| - 1].metadata.threadId;
      if Named(given) then given else LatestThread(e, tags[..|tags| - 1])
  }

  /** The last tag names a thread: its own, or, as it gives no id at all, the one known before. */
  predicate LastNames(e: Err, tags: seq<Tagging>)
    requires tags != []
  {
    var given := tags[|tags| - 1].metadata.threadId;
    Named(if given.Some? then given else LatestThread(e, tags[..|tags| - 1]))
  }

  function ValueOf(info: Option<map<string, string>>, key: string): Option<string> {
    if key in Entries(info) then Some(Entries(info)[key]) else None
  }

  /**
    * The value the latest tag with this key gave, or the one the error had; a tag that names a thread gives `threadId`.
    */
  function LatestValue(e: Err, tags: seq<Tagging>, key: string): Option<string>
    decreases |tags|
  {
    if tags == [] then ValueOf(e.retryInfo, key)
    else if key == "threadId" && LastNames(e, tags) then LatestThread(e, tags)
    else
      var given := ValueOf(tags[|tags| - 1].metadata.retryInfo, key);
      if given.Some? then given else LatestValue(e, tags[..|tags| - 1], key)
  }

  /**
    * Over any sequence of tags `retryInfo` is the right-biased merge, key by key, of what the error and the tags
    * carried; and the error's own thread is the latest non-empty one.
    */
  lemma {:induction false} RetryInfoIsRightBiased(e: Err, tags: seq<Tagging>, key: string)
    ensures ValueOf(TagAll(e, tags).retryInfo, key) == LatestValue(e, tags, key)
    ensures TagAll(e, tags).threadId == LatestThread(e, tags)
    decreases |tags|
  {
    if tags != [] {
      RetryInfoIsRightBiased(e, tags[..|tags| - 1], key);
      var before, m := TagAll(e, tags[..|tags| - 1]), tags[|tags| - 1].metadata;
      var merged := MergedInfo(before, m);
      assert Named(ResolvedThread(before, m)) <==> LastNames(e, tags);
      assert forall k :: k in Entries(before.retryInfo) || k in Entries(m.retryInfo) ==> k in merged;
      assert merged == map[] ==> key !in merged;
    }
  }

  /** Whenever the last tag resolves to an id that is not empty, error and `retryInfo` name that thread. */
  lemma ThreadsAgree(e: Err, tags: seq<Tagging>)
    requires tags != []
    requires var last := tags[|tags| - 1].metadata; ResolvedThread(TagAll(e, tags[..|tags| - 1]), last).Some?
    ensures var after := TagAll(e, tags);
      && after.threadId == LatestThread(e, tags) && after.threadId.Some? && after.retryInfo.Some?
      && "threadId" in after.retryInfo.value && after.retryInfo.value["threadId"] == after.threadId.value
  {
    RetryInfoIsRightBiased(e, tags, "threadId");
    RetryInfoIsRightBiased(e, tags[..|tags| - 1], "threadId");
  }

  // ---------------------------------------------------------------- when error and retryInfo disagree

  /** The error names one thread and its `retryInfo` another. */
  predicate Disagrees(e: Err) {
    Named(e.threadId) && ValueOf(e.retryInfo, "threadId") !in {None, e.threadId}
  }

  predicate GivesEmptyId(t: Tagging) {
    t.metadata.threadId == Some("")
  }

  function EntryOf(t: Tagging): Option<string> {
    ValueOf(t.metadata.retryInfo, "threadId")
  }

  /** From the `k`th tag on all give the empty id, and none after it has an entry of its own. */
  predicate QuietFrom(tags: seq<Tagging>, k: nat) {
    && (forall i :: k <= i < |tags| ==> GivesEmptyId(tags[i]))
    && (forall i :: k < i < |tags| ==> EntryOf(tags[i]).None?)
  }

  /** The `k`th tag is the last to have an entry, for another thread than `thread`, beside an empty id. */
  predicate Overrides(tags: seq<Tagging>, k: nat, thread: Option<string>) {
    k < |tags| && QuietFrom(tags, k) && EntryOf(tags[k]) !in {None, thread}
  }

  /** All tags give the empty id and none has an entry. */
  predicate Silent(tags: seq<Tagging>) {
    forall i :: 0 <= i < |tags| ==> GivesEmptyId(tags[i]) && EntryOf(tags[i]).None?
  }

  /**
    * After any tags error and `retryInfo` name different threads if and only if some tag put another thread into
    * `retryInfo` beside an empty id and no later one set that right, or they did so before and every tag was silent.
    */
  lemma {:induction false} ThreadsDisagreeIff(e: Err, tags: seq<Tagging>)
    ensures Disagrees(TagAll(e, tags)) <==>
      && Named(LatestThread(e, tags))
      && ((exists k: nat :: Overrides(tags, k, LatestThread(e, tags))) || (Silent(tags) && Disagrees(e)))
    decreases |tags|
  {
    if tags != [] {
      var front, last, thread := tags[..|tags| - 1], tags[|tags| - 1], LatestThread(e, tags);
      RetryInfoIsRightBiased(e, tags, "threadId");
      RetryInfoIsRightBiased(e, front, "threadId");
      hide TagAll, Overrides;
      if Named(thread) {
        if !GivesEmptyId(last) {
          assert LastNames(e, tags);
          assert forall k: nat :: !Overrides(tags, k, thread) by {
            OnlyEmptyOverride(tags, thread);
          }
        } else if EntryOf(last).Some? {
          EntryOverrides(tags, thread);
        } else {
          assert tags == front + [last];
          OverridesInFront(front, last, thread);
          ThreadsDisagreeIff(e, front);
          SilentInFront(front, last);
        }
      }
    }
  }

  lemma OnlyEmptyOverride(tags: seq<Tagging>, thread: Option<string>)
    requires tags != [] && !GivesEmptyId(tags[|tags| - 1])
    ensures forall k: nat :: !Overrides(tags, k, thread)
  {
  }

  /** With an entry of its own, only the last tag can override. */
  lemma EntryOverrides(tags: seq<Tagging>, thread: Option<string>)
    requires tags != [] && GivesEmptyId(tags[|tags| - 1]) && EntryOf(tags[|tags| - 1]).Some?
    ensures (exists k: nat :: Overrides(tags, k, thread)) <==> EntryOf(tags[|tags| - 1]) != thread
  {
    assert Overrides(tags, |tags| - 1, thread) <==> EntryOf(tags[|tags| - 1]) != thread;
  }

  /** A last tag with an empty id and no entry changes nothing about who overrides. */
  lemma OverridesInFront(front: seq<Tagging>, last: Tagging, thread: Option<string>)
    requires GivesEmptyId(last) && EntryOf(last).None?
    ensures (exists k: nat :: Overrides(front + [last], k, thread)) <==> exists k: nat :: Overrides(front, k, thread)
  {
    var tags := front + [last];
    forall k: nat
      ensures Overrides(tags, k, thread) <==> Overrides(front, k, thread)
    {
      assert forall i :: 0 <= i < |front| ==> front[i] == tags[i];
      if k < |front| && QuietFrom(front, k) {
        assert QuietFrom(tags, k);
      }
    }
  }

  lemma SilentInFront(front: seq<Tagging>, last: Tagging)
    requires GivesEmptyId(last) && EntryOf(last).None?
    ensures Silent(front + [last]) <==> Silent(front)
  {
    hide GivesEmptyId, EntryOf;
    var tags := front + [last];
    assert forall i :: 0 <= i < |tags| ==> tags[i] == if i < |front| then front[i] else last;
    if Silent(tags) {
      assert forall i :: 0 <= i < |front| ==> GivesEmptyId(tags[i]) && EntryOf(tags[i]).None?;
      assert forall i :: 0 <= i < |front| ==> front[i] == tags[i];
    }
  }

  /** The shortest such case. */
  lemma EmptyIdLetsThemDisagree(reason: Reason)
    ensures var e := Err(None, Some("t1"), None, false, false, false);
      Disagrees(Tag(e, reason, Metadata(Some(""), Some(map["threadId" := "t2"]))))
  {
  }
}
