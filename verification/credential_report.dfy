/** The IAM provider's reading of the credential report: CSV text turned into
    one dict per user row, keyed by the header line's column names. Fields
    are split at every comma; quoting is not understood.
 */
module CredentialReport {
  import opened Values
  import opened Seqs
  import opened Text

  /** `{key: value for key, value in zip(header, fields)}`: pairs up to the
      shorter of the two, a repeated key keeping its last value. */
  function Record(header: seq<string>, fields: seq<string>): (r: map<string, Value>)
    ensures r.Keys == set j | 0 <= j < |header| && j < |fields| :: header[j]
    decreases |header|
  {
    var n := if |header| < |fields| then |header| else |fields|;
    if n == 0 then map[]
    else Record(header[..n - 1], fields[..n - 1])[header[n - 1] := Str(fields[n - 1])]
  }

  /** Each key holds the field of its last column within the shorter of the
      two rows. */
  lemma {:induction false} RecordLastWins(header: seq<string>, fields: seq<string>, j: nat)
    requires j < |header| && j < |fields|
    requires forall k | j < k < |header| && k < |fields| :: header[k] != header[j]
    ensures Record(header, fields)[header[j]] == Str(fields[j])
    decreases |header|
  {
    var n := if |header| < |fields| then |header| else |fields|;
    if j < n - 1 {
      var h, f := header[..n - 1], fields[..n - 1];
      assert forall k | j < k < |h| && k < |f| :: h[k] != h[j];
      RecordLastWins(h, f, j);
    }
  }

  /** With distinct column names a record has exactly one entry per column
      the row and the header share: the rest are silently dropped. */
  lemma {:induction false} RecordSize(header: seq<string>, fields: seq<string>)
    requires forall i, k | 0 <= i < k < |header| :: header[i] != header[k]
    ensures |Record(header, fields)| == if |header| < |fields| then |header| else |fields|
    decreases |header|
  {
    var n := if |header| < |fields| then |header| else |fields|;
    if n > 0 {
      var h, f := header[..n - 1], fields[..n - 1];
      RecordSize(h, f);
      assert header[n - 1] !in Record(h, f);
    }
  }

  /** The list comprehension over the lines after the first. The header is
      split anew for every row, so content without rows never reads it. */
  function Rows(content: string): (r: seq<Value>)
    ensures |r| == if |SplitLines(content)| == 0 then 0 else |SplitLines(content)| - 1
    ensures forall i | 0 <= i < |r| :: r[i].Obj?
  {
    var lines := SplitLines(content);
    if |lines| == 0 then []
    else MapSeq(lines[1..], line => Obj(Record(Split(lines[0], ','), Split(line, ','))))
  }

  /** Row `i` is the record of line `i + 1`; the header line itself is never
      a record. */
  lemma RowsAreRecords(content: string, i: nat)
    requires i + 1 < |SplitLines(content)|
    ensures var lines := SplitLines(content);
            Rows(content)[i] == Obj(Record(Split(lines[0], ','), Split(lines[i + 1], ',')))
  {
  }

  /** For a report written as a header line and rows, each followed by "\n",
      the rows come back one per written row, in order. */
  lemma {:induction false} RowsOfWrittenReport(header: string, rows: seq<string>)
    requires IsLine(header) && forall i | 0 <= i < |rows| :: IsLine(rows[i])
    ensures |Rows(Terminated([header] + rows))| == |rows|
    ensures forall i | 0 <= i < |rows| ::
              Rows(Terminated([header] + rows))[i] == Obj(Record(Split(header, ','), Split(rows[i], ',')))
  {
    var lines := [header] + rows;
    SplitLinesTerminated(lines);
    assert lines[1..] == rows;
  }
}
