/** The history file: an ndb database of records, scanned for the last
    `role` and `content` of each record, and grown by two records after
    every continued conversation. Both variants share this logic. */
module History {
  import opened Wrappers
  import opened Messages

  /** One `attr=value` pair of an ndb record, as the ndb parser yields it. */
  datatype Tuple = Tuple(attr: string, val: string)

  /** One ndb record: its tuples in the order they appear on the line. */
  type Record = seq<Tuple>

  const RoleAttr := "role"
  const ContentAttr := "content"

  /** Why ndb.Open fails on a history file that is not there. */
  const NotFound := "no such file or directory"

  /** Position i holds the last tuple of `rec` whose attribute is `attr`. */
  predicate IsLastWith(rec: Record, i: int, attr: string)
  {
    0 <= i < |rec| && rec[i].attr == attr && forall j :: i < j < |rec| ==> rec[j].attr != attr
  }

  /** The value of the last tuple of `rec` whose attribute is `attr`, or ""
      when no tuple has it: a later tuple overwrites an earlier one. */
  function LastValue(rec: Record, attr: string): string
    decreases |rec|
  {
    if rec == [] then ""
    else if rec[|rec| - 1].attr == attr then rec[|rec| - 1].val
    else LastValue(rec[..|rec| - 1], attr)
  }

  /** LastValue is the value of the last tuple carrying the attribute, and ""
      when no tuple carries it. */
  lemma {:induction false} LastValueIsLast(rec: Record, attr: string)
    ensures (forall i :: 0 <= i < |rec| ==> rec[i].attr != attr) ==> LastValue(rec, attr) == ""
    ensures forall i :: IsLastWith(rec, i, attr) ==> LastValue(rec, attr) == rec[i].val
    decreases |rec|
  {
    if rec != [] && rec[|rec| - 1].attr != attr {
      var pre := rec[..|rec| - 1];
      LastValueIsLast(pre, attr);
      forall i | IsLastWith(rec, i, attr) ensures IsLastWith(pre, i, attr) { }
    }
  }

  /** A record contributes a message when its final role and its final
      content are both non-empty. */
  predicate Contributes(rec: Record)
  {
    LastValue(rec, RoleAttr) != "" && LastValue(rec, ContentAttr) != ""
  }

  /** The message a contributing record yields: its final role and content. */
  function RecordMessage(rec: Record): Message
  {
    Message(LastValue(rec, RoleAttr), LastValue(rec, ContentAttr))
  }

  /** The messages the records yield, in record order. */
  function Kept(recs: seq<Record>): (msgs: seq<Message>)
    ensures |msgs| <= |recs|
    ensures forall k :: 0 <= k < |msgs| ==> msgs[k].role != "" && msgs[k].content != ""
    decreases |recs|
  {
    if recs == [] then []
    else
      var last := recs[|recs| - 1];
      Kept(recs[..|recs| - 1]) + (if Contributes(last) then [RecordMessage(last)] else [])
  }

  /** The positions of the records that contribute a message. */
  ghost function KeptIndices(recs: seq<Record>): seq<nat>
    decreases |recs|
  {
    if recs == [] then []
    else KeptIndices(recs[..|recs| - 1]) + (if Contributes(recs[|recs| - 1]) then [|recs| - 1] else [])
  }

  /** The kept positions are increasing positions of contributing records, one
      per loaded message, each message being that record's final pair. */
  lemma {:induction false} KeptIndicesMatch(recs: seq<Record>)
    ensures |KeptIndices(recs)| == |Kept(recs)|
    ensures forall k :: 0 <= k < |KeptIndices(recs)| ==>
              KeptIndices(recs)[k] < |recs| && Contributes(recs[KeptIndices(recs)[k]])
              && Kept(recs)[k] == RecordMessage(recs[KeptIndices(recs)[k]])
    ensures forall k, l :: 0 <= k < l < |KeptIndices(recs)| ==> KeptIndices(recs)[k] < KeptIndices(recs)[l]
    decreases |recs|
  {
    if recs != [] {
      var n := |recs| - 1;
      var pre := recs[..n];
      KeptIndicesMatch(pre);
      var ix, ixp := KeptIndices(recs), KeptIndices(pre);
      var ms, msp := Kept(recs), Kept(pre);
      assert ix[..|ixp|] == ixp && ms[..|msp|] == msp;
      forall k | 0 <= k < |ixp|
        ensures ix[k] < n && Contributes(recs[ix[k]]) && ms[k] == RecordMessage(recs[ix[k]])
      {
        assert ix[k] == ixp[k] && ms[k] == msp[k] && pre[ixp[k]] == recs[ixp[k]];
      }
    }
  }

  /** Every kept position is a position of the records. */
  lemma {:induction false} KeptIndicesBelow(recs: seq<Record>)
    ensures forall k :: 0 <= k < |KeptIndices(recs)| ==> KeptIndices(recs)[k] < |recs|
    decreases |recs|
  {
    if recs != [] {
      KeptIndicesBelow(recs[..|recs| - 1]);
    }
  }

  /** Every contributing record is among the kept positions, and only those. */
  lemma {:induction false} KeptIndicesComplete(recs: seq<Record>)
    ensures forall j :: 0 <= j < |recs| ==> (j in KeptIndices(recs) <==> Contributes(recs[j]))
    decreases |recs|
  {
    if recs != [] {
      var n := |recs| - 1;
      var pre := recs[..n];
      KeptIndicesComplete(pre);
      KeptIndicesBelow(pre);
      var ixp := KeptIndices(pre);
      var tail: seq<nat> := if Contributes(recs[n]) then [n] else [];
      assert KeptIndices(recs) == ixp + tail;
      assert n !in ixp by {
        forall k | 0 <= k < |ixp| ensures ixp[k] != n { }
      }
      forall j | 0 <= j < |recs|
        ensures j in ixp + tail <==> Contributes(recs[j])
      {
        if j < n {
          assert pre[j] == recs[j];
          assert j !in tail;
        }
      }
    }
  }

  /** The loaded messages are a subsequence of the records: record j contributes
      exactly when its final role and content are both non-empty, the
      contributions keep record order, and each is that record's final pair. */
  lemma {:induction false} KeptIsSubsequence(recs: seq<Record>)
    ensures |KeptIndices(recs)| == |Kept(recs)|
    ensures forall k :: 0 <= k < |KeptIndices(recs)| ==>
              KeptIndices(recs)[k] < |recs|
              && Kept(recs)[k] == Message(LastValue(recs[KeptIndices(recs)[k]], RoleAttr),
                                          LastValue(recs[KeptIndices(recs)[k]], ContentAttr))
    ensures forall k, l :: 0 <= k < l < |KeptIndices(recs)| ==> KeptIndices(recs)[k] < KeptIndices(recs)[l]
    ensures forall j :: 0 <= j < |recs| ==>
              (j in KeptIndices(recs) <==>
                 LastValue(recs[j], RoleAttr) != "" && LastValue(recs[j], ContentAttr) != "")
  {
    KeptIndicesMatch(recs);
    KeptIndicesComplete(recs);
  }

  /** Scanning a concatenation scans each part. */
  lemma {:induction false} KeptAppend(a: seq<Record>, b: seq<Record>)
    ensures Kept(a + b) == Kept(a) + Kept(b)
    decreases |b|
  {
    if b == [] {
      assert a + b == a;
    } else {
      var n := |b| - 1;
      assert (a + b)[..|a + b| - 1] == a + b[..n];
      KeptAppend(a, b[..n]);
    }
  }

  /** The record one `message role=%q content=%q` line becomes when parsed back. */
  function TurnRecord(role: string, text: string): Record
  {
    [Tuple("message", ""), Tuple(RoleAttr, role), Tuple(ContentAttr, text)]
  }

  /** The two records appended after a continued conversation: the user's
      prompt, then the assistant's reply. */
  function TurnRecords(userPrompt: string, reply: string): seq<Record>
  {
    [TurnRecord(User, userPrompt), TurnRecord(Assistant, reply)]
  }

  /** Appending a turn and loading again yields the old messages followed by the
      prompt and the reply; a part that is empty is not read back. */
  lemma TurnRoundTrip(recs: seq<Record>, userPrompt: string, reply: string)
    ensures Kept(recs + TurnRecords(userPrompt, reply))
         == Kept(recs)
            + (if userPrompt != "" then [Message(User, userPrompt)] else [])
            + (if reply != "" then [Message(Assistant, reply)] else [])
  {
    var turn := TurnRecords(userPrompt, reply);
    KeptAppend(recs, turn);
    assert turn[..1] == [TurnRecord(User, userPrompt)];
    assert [TurnRecord(User, userPrompt)][..0] == [];
    assert LastValue(TurnRecord(User, userPrompt), RoleAttr) == User;
    assert LastValue(TurnRecord(User, userPrompt), ContentAttr) == userPrompt;
    assert LastValue(TurnRecord(Assistant, reply), RoleAttr) == Assistant;
    assert LastValue(TurnRecord(Assistant, reply), ContentAttr) == reply;
  }

  /** The scan of loadHist/loadhist: for each record, walk its tuples keeping
      the last `role` and the last `content`, and keep the record when both
      are non-empty. */
  method ScanRecords(recs: seq<Record>) returns (msgs: seq<Message>)
    ensures msgs == Kept(recs)
  {
    msgs := [];
    for r := 0 to |recs|
      invariant msgs == Kept(recs[..r])
    {
      var rec := recs[r];
      var role, content := "", "";
      for t := 0 to |rec|
        invariant role == LastValue(rec[..t], RoleAttr)
        invariant content == LastValue(rec[..t], ContentAttr)
      {
        assert rec[..t + 1][..t] == rec[..t];
        if rec[t].attr == RoleAttr {
          role := rec[t].val;
        }
        if rec[t].attr == ContentAttr {
          content := rec[t].val;
        }
      }
      assert rec[..|rec|] == rec;
      assert recs[..r + 1][..r] == recs[..r];
      if role != "" && content != "" {
        msgs := msgs + [Message(role, content)];
      }
    }
    assert recs[..|recs|] == recs;
  }

  /** The history file on disk, seen through ndb: its records in file order,
      whether it is there for ndb.Open, and why opening it for append fails,
      if it does. */
  class HistoryFile {
    var records: seq<Record>
    var present: bool
    var appendError: Option<string>

    /** A file that is not there holds no records: opening it for append
        creates it empty. */
    ghost predicate Valid()
      reads this
    {
      !present ==> records == []
    }

    constructor (records: seq<Record>, present: bool, appendError: Option<string>)
      requires !present ==> records == []
      ensures Valid()
      ensures this.records == records && this.present == present
      ensures this.appendError == appendError
    {
      this.records := records;
      this.present := present;
      this.appendError := appendError;
    }

    /** What ndb.Open yields: the database's records, or why it failed. */
    function Open(): Result<seq<Record>, string>
      reads this
    {
      if present then Success(records) else Failure(NotFound)
    }

    /** The messages a load of this file yields when it returns on a failed open. */
    ghost function Messages(): seq<Message>
      reads this
    {
      if present then Kept(records) else []
    }

    /** Open for append (creating the file) and write the user record, then the
      assistant record. O_APPEND leaves the earlier records as they were. */
    method Append(userPrompt: string, reply: string) returns (err: Option<string>)
      requires Valid()
      modifies this
      ensures Valid()
      ensures err == old(appendError) && appendError == old(appendError)
      ensures err.None? ==> records == old(records) + TurnRecords(userPrompt, reply) && present
      ensures err.None? && !old(present) ==> records == TurnRecords(userPrompt, reply)
      ensures err.Some? ==> records == old(records) && present == old(present)
    {
      err := appendError;
      if err.Some? {
        return;
      }
      present := true;
      records := records + [TurnRecord(User, userPrompt)];
      records := records + [TurnRecord(Assistant, reply)];
    }
  }

  /** loadHist of the Linux variant: no history when the file cannot be
      opened, otherwise the scan of its records. */
  method Load(file: HistoryFile) returns (msgs: seq<Message>)
    ensures msgs == file.Messages()
    ensures !file.present ==> msgs == []
    ensures file.present ==> msgs == Kept(file.records)
  {
    var db := file.Open();
    if db.Failure? {
      return [];
    }
    msgs := ScanRecords(db.value);
  }
}
