/**
 * The Quest session log (components/QuestGame.tsx): one entry per (verb, form) pair, upserted
 * on every mistake and created on a first clean defeat, and the final report's two lists.
 */
module QuestHistory {
  import opened Verbs

  datatype Status = Perfect | Practiced

  /** `SessionLog`: `verb` is the verb's base form. */
  datatype SessionLog = SessionLog(verb: string, form: Form, mistakes: nat, status: Status)

  predicate IsEntryFor(e: SessionLog, verb: string, form: Form) {
    e.verb == verb && e.form == form
  }

  /** `history.findIndex(h => h.verb === verb && h.form === form)`. */
  function IndexOfEntry(h: seq<SessionLog>, verb: string, form: Form): (r: int)
    ensures -1 <= r < |h|
    ensures r == -1 <==> forall i :: 0 <= i < |h| ==> !IsEntryFor(h[i], verb, form)
    ensures r >= 0 ==> IsEntryFor(h[r], verb, form) && forall i :: 0 <= i < r ==> !IsEntryFor(h[i], verb, form)
  {
    if h == [] then -1
    else if IsEntryFor(h[0], verb, form) then 0
    else
      var r := IndexOfEntry(h[1..], verb, form);
      if r < 0 then -1 else r + 1
  }

  /** The search loop behind `findIndex` / `find`, as the handlers run it. */
  method FindEntry(h: seq<SessionLog>, verb: string, form: Form) returns (idx: int)
    ensures idx == -1 <==> forall i :: 0 <= i < |h| ==> !IsEntryFor(h[i], verb, form)
    ensures idx >= 0 ==> idx < |h| && IsEntryFor(h[idx], verb, form)
    ensures idx == IndexOfEntry(h, verb, form)
  {
    var i := 0;
    while i < |h|
      invariant 0 <= i <= |h|
      invariant forall j :: 0 <= j < i ==> !IsEntryFor(h[j], verb, form)
    {
      if h[i].verb == verb && h[i].form == form {
        return i;
      }
      i := i + 1;
    }
    return -1;
  }

  /** No two entries share a (verb, form) key. */
  predicate UniqueKeys(h: seq<SessionLog>) {
    forall i, j :: 0 <= i < j < |h| ==> !(h[i].verb == h[j].verb && h[i].form == h[j].form)
  }

  /** An entry is PERFECT exactly when it records no mistake. */
  predicate StatusAgrees(h: seq<SessionLog>) {
    forall i :: 0 <= i < |h| ==> (h[i].status == Perfect <==> h[i].mistakes == 0)
  }

  predicate ValidHistory(h: seq<SessionLog>) {
    UniqueKeys(h) && StatusAgrees(h)
  }

  /**
   * The log update of `handleDamage`: bump the existing entry and mark it PRACTICED, or
   * append a PRACTICED entry with one mistake.
   */
  function RecordMistake(h: seq<SessionLog>, verb: string, form: Form): (r: seq<SessionLog>)
    ensures ValidHistory(h) ==> ValidHistory(r)
    ensures |r| == if IndexOfEntry(h, verb, form) >= 0 then |h| else |h| + 1
    ensures var k := IndexOfEntry(r, verb, form);
            k >= 0 && r[k].status == Practiced
            && r[k].mistakes == (if k < |h| then h[k].mistakes + 1 else 1)
    ensures forall i :: 0 <= i < |h| && !IsEntryFor(h[i], verb, form) ==> r[i] == h[i]
  {
    var i := IndexOfEntry(h, verb, form);
    if i >= 0 then
      var r := h[i := h[i].(mistakes := h[i].mistakes + 1, status := Practiced)];
      FirstEntryAt(r, verb, form, i);
      r
    else
      var r := h + [SessionLog(verb, form, 1, Practiced)];
      FirstEntryAt(r, verb, form, |h|);
      r
  }

  /** The first entry for a key is the one `IndexOfEntry` finds. */
  lemma FirstEntryAt(h: seq<SessionLog>, verb: string, form: Form, k: int)
    requires 0 <= k < |h| && IsEntryFor(h[k], verb, form)
    requires forall j :: 0 <= j < k ==> !IsEntryFor(h[j], verb, form)
    ensures IndexOfEntry(h, verb, form) == k
  {
  }

  /**
   * The log update of a successful spelling: a PERFECT entry with no mistakes is appended
   * only when the key has no entry yet; existing entries are never touched.
   */
  function RecordSuccess(h: seq<SessionLog>, verb: string, form: Form): (r: seq<SessionLog>)
    ensures ValidHistory(h) ==> ValidHistory(r)
    ensures |h| <= |r| && r[..|h|] == h
    ensures IndexOfEntry(h, verb, form) >= 0 ==> r == h
    ensures IndexOfEntry(h, verb, form) < 0 ==> r == h + [SessionLog(verb, form, 0, Perfect)]
    ensures IndexOfEntry(r, verb, form) >= 0
  {
    if IndexOfEntry(h, verb, form) >= 0 then h
    else
      var r := h + [SessionLog(verb, form, 0, Perfect)];
      FirstEntryAt(r, verb, form, |h|);
      r
  }

  /** Both updates keep every existing entry at its index. */
  lemma {:induction false} IndexOfEntryStable(h: seq<SessionLog>, r: seq<SessionLog>, verb: string, form: Form)
    requires |h| <= |r|
    requires forall i :: 0 <= i < |h| ==> IsEntryFor(r[i], verb, form) == IsEntryFor(h[i], verb, form)
    requires IndexOfEntry(h, verb, form) >= 0
    ensures IndexOfEntry(r, verb, form) == IndexOfEntry(h, verb, form)
  {
    var k := IndexOfEntry(h, verb, form);
    var k' := IndexOfEntry(r, verb, form);
    assert IsEntryFor(r[k], verb, form);
    assert k' <= k;
  }

  /**
   * Once an entry is PRACTICED it stays PRACTICED: neither a later mistake nor a later
   * success (on any key) turns it back into PERFECT.
   */
  lemma PracticedIsSticky(h: seq<SessionLog>, verb: string, form: Form, v2: string, f2: Form, mistake: bool)
    requires IndexOfEntry(h, verb, form) >= 0
    requires h[IndexOfEntry(h, verb, form)].status == Practiced
    ensures var r := if mistake then RecordMistake(h, v2, f2) else RecordSuccess(h, v2, f2);
            IndexOfEntry(r, verb, form) == IndexOfEntry(h, verb, form)
            && r[IndexOfEntry(r, verb, form)].status == Practiced
  {
    var r := if mistake then RecordMistake(h, v2, f2) else RecordSuccess(h, v2, f2);
    var k := IndexOfEntry(h, verb, form);
    forall i | 0 <= i < |h| ensures IsEntryFor(r[i], verb, form) == IsEntryFor(h[i], verb, form) {
      assert r[i].verb == h[i].verb && r[i].form == h[i].form;
    }
    IndexOfEntryStable(h, r, verb, form);
  }

  // ---------------------------------------------------------------------------
  // Final report
  // ---------------------------------------------------------------------------

  /** `sessionHistory.filter(l => l.status === status)`. */
  function WithStatus(h: seq<SessionLog>, status: Status): (r: seq<SessionLog>)
    ensures |r| <= |h|
    ensures forall i :: 0 <= i < |r| ==> r[i].status == status
  {
    if h == [] then []
    else
      var rest := WithStatus(h[1..], status);
      if h[0].status == status then [h[0]] + rest else rest
  }

  /** An entry is listed exactly when it is in the log with that status. */
  lemma {:induction false} WithStatusMembers(h: seq<SessionLog>, status: Status, e: SessionLog)
    ensures e in WithStatus(h, status) <==> e in h && e.status == status
  {
    if h != [] {
      WithStatusMembers(h[1..], status, e);
      assert e in h <==> e == h[0] || e in h[1..] by {
        assert h == [h[0]] + h[1..];
      }
    }
  }

  /** The PERFECT list of the report. */
  function Perfects(h: seq<SessionLog>): seq<SessionLog> {
    WithStatus(h, Perfect)
  }

  /** The NEEDS PRACTICE list of the report. */
  function NeedsPractice(h: seq<SessionLog>): seq<SessionLog> {
    WithStatus(h, Practiced)
  }

  /** The two lists split the history: together they hold each entry exactly once. */
  lemma {:induction false} ReportPartition(h: seq<SessionLog>)
    ensures multiset(Perfects(h)) + multiset(NeedsPractice(h)) == multiset(h)
    ensures |Perfects(h)| + |NeedsPractice(h)| == |h|
  {
    if h != [] {
      ReportPartition(h[1..]);
      assert h == [h[0]] + h[1..];
    }
  }

  /** The filters keep insertion order: the lists of a longer log extend those of its prefix. */
  lemma {:induction false} WithStatusAppend(a: seq<SessionLog>, b: seq<SessionLog>, status: Status)
    ensures WithStatus(a + b, status) == WithStatus(a, status) + WithStatus(b, status)
  {
    if a == [] {
      assert a + b == b;
    } else {
      var ab := a + b;
      assert ab[0] == a[0] && ab[1..] == a[1..] + b;
      WithStatusAppend(a[1..], b, status);
      assert WithStatus(ab, status) == (if a[0].status == status then [a[0]] else []) + WithStatus(ab[1..], status);
      assert WithStatus(a, status) == (if a[0].status == status then [a[0]] else []) + WithStatus(a[1..], status);
    }
  }
}
