/** The naive CSV reading shared by the browser loader and the conversion
    script: trim the text, split it into lines at `\n` and each line into
    cells at `,`, with no quoting. */
module CsvTable {
  import opened Wrappers
  import opened JsString
  import opened JsNumber

  /** `text.trim().split('\n')`: never empty, line 0 is the header. */
  function Lines(text: string): (lines: seq<string>)
    ensures |lines| >= 1
    ensures forall k :: 0 <= k < |lines| ==> '\n' !in lines[k]
    ensures Join(lines, "\n") == Trim(text)
  {
    JoinSplit(Trim(text), '\n');
    Split(Trim(text), '\n')
  }

  /** `row[index]`: `undefined` (None) for a missing column (-1) or a short
      row. */
  function Cell(row: seq<string>, index: int): (c: Option<string>)
    ensures c.Some? <==> 0 <= index < |row|
    ensures c.Some? ==> c.value == row[index]
  {
    if 0 <= index < |row| then Some(row[index]) else None
  }

  /** `cell || fallback`: the fallback for `undefined` and for the empty
      string, the only falsy strings. */
  function OrDefault(c: Option<string>, fallback: string): (s: string)
    ensures c.Some? && c.value != "" ==> s == c.value
    ensures c.None? || c.value == "" ==> s == fallback
  {
    if c.Some? && c.value != "" then c.value else fallback
  }

  /** `parseFloat(cell)`: `parseFloat(undefined)` is NaN. */
  function ParseCell(c: Option<string>): (r: Option<real>)
    ensures c.None? ==> r.None?
    ensures c.Some? ==> r == ParseFloat(c.value)
  {
    match c
    case None => None
    case Some(s) => ParseFloat(s)
  }

  /** The present values among `rows[..n]`, in order: what a loop that
      pushes only the rows it accepts collects. */
  function Present<T>(rows: seq<Option<T>>, n: nat): (xs: seq<T>)
    requires n <= |rows|
    ensures |xs| <= n
    decreases n
  {
    if n == 0 then []
    else
      var prev := Present(rows, n - 1);
      match rows[n - 1]
      case Some(x) => prev + [x]
      case None => prev
  }

  /** The position in `Present(rows, n)` of the value of row `i`. */
  lemma {:induction false} PresentAt<T>(rows: seq<Option<T>>, n: nat, i: nat) returns (k: nat)
    requires n <= |rows| && i < n && rows[i].Some?
    ensures k < |Present(rows, n)| && Present(rows, n)[k] == rows[i].value
    decreases n
  {
    var prev := Present(rows, n - 1);
    if i < n - 1 {
      k := PresentAt(rows, n - 1, i);
      assert Present(rows, n)[k] == prev[k];
    } else {
      k := |prev|;
    }
  }

  /** Every accepted row's value is collected. */
  lemma EveryPresentKept<T>(rows: seq<Option<T>>, n: nat, i: nat)
    requires n <= |rows| && i < n && rows[i].Some?
    ensures rows[i].value in Present(rows, n)
  {
    var k := PresentAt(rows, n, i);
  }

  /** Everything collected comes from an accepted row. */
  lemma {:induction false} PresentFromRows<T>(rows: seq<Option<T>>, n: nat, x: T)
    requires n <= |rows| && x in Present(rows, n)
    ensures exists i :: 0 <= i < n && rows[i] == Some(x)
    decreases n
  {
    var prev := Present(rows, n - 1);
    if x in prev {
      PresentFromRows(rows, n - 1, x);
    } else {
      assert rows[n - 1] == Some(x);
    }
  }
}
