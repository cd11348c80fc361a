/** The sinks for matched events: a raw text printer, a table printer and a
    statistics aggregator built on a counting dictionary. */
module Processors {
  import opened TraceTypes
  import opened Extensions
  import opened Tables

  // ---------------------------------------------------------------------
  // Display field specifications "name[width]"
  // ---------------------------------------------------------------------

  /** End of the run of digits that starts at `j`. */
  function DigitRunEnd(s: string, j: nat): (k: nat)
    requires j <= |s|
    ensures j <= k <= |s|
    ensures forall i :: j <= i < k ==> IsDigit(s[i])
    ensures k == |s| || !IsDigit(s[k])
    decreases |s| - j
  {
    if j < |s| && IsDigit(s[j]) then DigitRunEnd(s, j + 1) else j
  }

  /** The digit run starting at `j` ends at `k` when `k` is the first
      position from `j` on that is not a digit. */
  lemma {:induction false} DigitRunEndAt(s: string, j: nat, k: nat)
    requires j <= k <= |s|
    requires forall i :: j <= i < k ==> IsDigit(s[i])
    requires k == |s| || !IsDigit(s[k])
    ensures DigitRunEnd(s, j) == k
    decreases k - j
  {
    if j < k {
      DigitRunEndAt(s, j + 1, k);
    }
  }

  /** `\[(\d+)\]` matches at position `i`: an opening bracket, the longest
      run of digits after it (at least one), then a closing bracket. */
  predicate BracketAt(s: string, i: nat)
  {
    i < |s| && s[i] == '[' &&
    var k := DigitRunEnd(s, i + 1);
    i + 1 < k < |s| && s[k] == ']'
  }

  /** The last position in [lo, hi) where a bracketed number starts. */
  function LastBracket(s: string, lo: nat, hi: nat): (r: Option<nat>)
    requires hi <= |s|
    ensures r.Some? ==> lo <= r.value < hi && BracketAt(s, r.value)
    ensures r.Some? ==> forall i :: r.value < i < hi ==> !BracketAt(s, i)
    ensures r.None? ==> forall i :: lo <= i < hi ==> !BracketAt(s, i)
    decreases hi
  {
    if hi <= lo then None
    else if BracketAt(s, hi - 1) then Some(hi - 1)
    else LastBracket(s, lo, hi - 1)
  }

  /** The end of the line that starts at `p`: the next '\n' or the end. */
  function LineEnd(s: string, p: nat): (e: nat)
    requires p <= |s|
    ensures p <= e <= |s| && (e == |s| || s[e] == '\n')
    ensures forall i :: p <= i < e ==> s[i] != '\n'
    decreases |s| - p
  {
    if p < |s| && s[p] != '\n' then LineEnd(s, p + 1) else p
  }

  /** The match of `(.*)\[(\d+)\]` searched from line start `p`, as the
      pair (start of group 1, position of the bracket). `.` does not match
      '\n', so the match lies on the first line that holds a bracketed
      number, and the greedy `.*` makes it the last one on that line. */
  function MatchFrom(s: string, p: nat): (r: Option<(nat, nat)>)
    requires p <= |s|
    ensures r.Some? ==> p <= r.value.0 <= r.value.1 < |s| && BracketAt(s, r.value.1)
    ensures r.Some? ==> r.value.0 == p || s[r.value.0 - 1] == '\n'
    ensures r.Some? ==> LastBracket(s, r.value.0, LineEnd(s, r.value.0)) == Some(r.value.1)
    ensures r.Some? ==> forall i :: p <= i < r.value.0 ==> !BracketAt(s, i)
    ensures r.None? ==> forall i :: p <= i < |s| ==> !BracketAt(s, i)
    decreases |s| - p
  {
    var e := LineEnd(s, p);
    match LastBracket(s, p, e)
    case Some(i) => Some((p, i))
    case None => if e < |s| then MatchFrom(s, e + 1) else None
  }

  /** The match lies on one line (`.` does not match '\n'), and the greedy
      `.*` makes it end at the last bracketed number of that line. */
  lemma MatchFromOnOneLine(s: string, p: nat)
    requires p <= |s| && MatchFrom(s, p).Some?
    ensures var m := MatchFrom(s, p).value;
      (forall i :: m.0 <= i < m.1 ==> s[i] != '\n') &&
      (forall i :: m.1 < i < LineEnd(s, m.0) ==> !BracketAt(s, i))
  {
  }

  /** A display field written `name[digits]` names a column with an
      explicit width; None when the pattern does not match. */
  function ParseColumnSpec(spec: string): (r: Option<Column>)
    ensures r.None? <==> forall i :: 0 <= i < |spec| ==> !BracketAt(spec, i)
  {
    match MatchFrom(spec, 0)
    case Some((p, i)) =>
      var k := DigitRunEnd(spec, i + 1);
      assert AllDigits(spec[i + 1..k]);
      Some(Column(spec[p..i], ParseNat(spec[i + 1..k])))
    case None => None
  }

  /** The column a display field asks for. */
  function RequestedColumn(spec: string): (c: Column)
    ensures (forall i :: 0 <= i < |spec| ==> !BracketAt(spec, i)) ==>
      c == Column(spec, GetExpectedFieldWidth(spec))
  {
    match ParseColumnSpec(spec)
    case Some(c) => c
    case None => Column(spec, GetExpectedFieldWidth(spec))
  }

  function Requested(specs: seq<string>): (r: seq<Column>)
    ensures |r| == |specs| && forall i :: 0 <= i < |specs| ==> r[i] == RequestedColumn(specs[i])
  {
    seq(|specs|, i requires 0 <= i < |specs| => RequestedColumn(specs[i]))
  }

  /** `name[w]` is read back as the column (name, w) when the name is on
      one line. */
  lemma ParseColumnSpecRoundTrip(name: string, w: nat)
    requires forall i :: 0 <= i < |name| ==> name[i] != '\n'
    ensures ParseColumnSpec(name + "[" + NatToString(w) + "]") == Some(Column(name, w))
  {
    var d := NatToString(w);
    var s := name + "[" + d + "]";
    var n: nat := |name|;
    assert s[n] == '[' && s[|s| - 1] == ']';
    assert forall i :: n < i < |s| - 1 ==> s[i] == d[i - n - 1];
    assert forall i :: 0 <= i < |s| ==> s[i] != '\n' by {
      forall i | 0 <= i < |s| ensures s[i] != '\n' {
        if i < n { assert s[i] == name[i]; }
      }
    }
    assert LineEnd(s, 0) == |s|;
    DigitRunEndAt(s, n + 1, |s| - 1);
    var k := DigitRunEnd(s, n + 1);
    assert BracketAt(s, n);
    assert forall i :: n < i < |s| ==> s[i] != '[';
    var r := LastBracket(s, 0, |s|);
    assert r == Some(n);
    assert MatchFrom(s, 0) == Some((0 as nat, n));
    assert s[0..n] == name;
    assert s[n + 1..k] == d;
    ParseNatToString(w);
  }

  lemma {:induction false} NoBracketNoMatch(s: string, p: nat)
    requires p <= |s|
    requires forall i :: 0 <= i < |s| ==> s[i] != '['
    ensures MatchFrom(s, p) == None
    decreases |s| - p
  {
    var e := LineEnd(s, p);
    if e < |s| {
      NoBracketNoMatch(s, e + 1);
    }
  }

  /** A display field without a bracket gets its default width. */
  lemma NoBracketDefaultWidth(spec: string)
    requires forall i :: 0 <= i < |spec| ==> spec[i] != '['
    ensures RequestedColumn(spec) == Column(spec, GetExpectedFieldWidth(spec))
  {
    NoBracketNoMatch(spec, 0);
  }

  // ---------------------------------------------------------------------
  // The table printer
  // ---------------------------------------------------------------------

  /** The values of a row: each column's field of the event, in column
      order; the first field that cannot be read throws out of the whole
      row. */
  function RowValues(cols: seq<Column>, e: Event): (r: Result<seq<string>>)
    ensures r.Ok? <==> forall i :: 0 <= i < |cols| ==> GetFieldByName(e, cols[i].name).Ok?
    ensures r.Ok? ==> |r.value| == |cols|
    ensures r.Ok? ==> forall i :: 0 <= i < |cols| ==> GetFieldByName(e, cols[i].name) == Ok(r.value[i])
    ensures r.Throws? ==> r.error == ArgumentOutOfRange
    decreases |cols|
  {
    if cols == [] then Ok([])
    else match GetFieldByName(e, cols[0].name)
      case Throws(x) => Throws(x)
      case Ok(v) =>
        match RowValues(cols[1..], e)
        case Throws(x) => Throws(x)
        case Ok(vs) => Ok([v] + vs)
  }

  /** One value per column: a row of an event always ends its line. */
  lemma RowOfEvent(cols: seq<Column>, e: Event, lastLimit: int)
    requires RowValues(cols, e).Ok?
    requires RowText(cols, RowValues(cols, e).value, lastLimit).Ok?
    ensures RowText(cols, RowValues(cols, e).value, lastLimit).value ==
            RowCells(cols, RowValues(cols, e).value, lastLimit).value + "\n"
  {
  }

  /** A column over a payload field whose value cannot be read makes the
      row throw: a one-field payload that throws, shown in a column. */
  lemma UnreadableColumnThrows()
    ensures var e := Event("E", "", "p", 1, 1, "t", [PayloadField("Size", Unreadable)]);
      RowValues([Column("Event", 20), Column("Size", 10)], e) == Throws(ArgumentOutOfRange)
  {
    var e := Event("E", "", "p", 1, 1, "t", [PayloadField("Size", Unreadable)]);
    assert PayloadByName(e.payload, "Size") == Some(Unreadable);
    assert !GetFieldByName(e, [Column("Event", 20), Column("Size", 10)][1].name).Ok?;
  }

  lemma RequestedStep(specs: seq<string>, i: nat)
    requires i < |specs|
    ensures Requested(specs[..i + 1]) == Requested(specs[..i]) + [RequestedColumn(specs[i])]
  {
  }

  /** Adds the column one display field asks for: the name and width of
      `name[width]`, or the field itself with its expected width. */
  method AddField(t: Table, field: string)
    requires t.Valid()
    modifies t
    ensures t.Valid()
    ensures var c := RequestedColumn(field);
      if old(t.usedWidth) + c.width + 1 <= t.MaxWidth
      then t.Columns == old(t.Columns) + [c] && t.usedWidth == old(t.usedWidth) + c.width + 1
      else t.Columns == old(t.Columns) && t.usedWidth == old(t.usedWidth)
  {
    match ParseColumnSpec(field) {
      case Some(c) => t.AddColumn(c.name, c.width);
      case None => t.AddColumn(field, GetExpectedFieldWidth(field));
    }
  }

  class EveryEventTablePrinter {
    const table: Table
    /** What the constructor wrote to the console: the header, or the
        exception PrintHeader threw. */
    const header: Result<string>

    ghost predicate Valid()
      reads this, table
    {
      table.Valid()
    }

    /** Adds one column per display field, in order, then prints the
        header. */
    constructor (fieldsToPrint: seq<string>, maxWidth: nat)
      ensures Valid() && fresh(table)
      ensures table.MaxWidth == maxWidth
      ensures table.Columns == Admit(Requested(fieldsToPrint), maxWidth)
      ensures header == HeaderText(table.Columns, table.usedWidth)
    {
      var t := new Table(maxWidth);
      var i := 0;
      while i < |fieldsToPrint|
        invariant 0 <= i <= |fieldsToPrint|
        invariant t.Valid() && t.MaxWidth == maxWidth
        invariant t.Columns == Admit(Requested(fieldsToPrint[..i]), maxWidth)
        invariant fresh(t)
      {
        RequestedStep(fieldsToPrint, i);
        AddField(t, fieldsToPrint[i]);
        i := i + 1;
      }
      assert fieldsToPrint[..i] == fieldsToPrint;
      var h := t.PrintHeader();
      table, header := t, h;
    }

    /** Prints the event's value of every column as one row; nothing is
        printed when a value cannot be read. */
    method TakeEvent(e: Event) returns (text: Result<string>)
      requires Valid()
      ensures RowValues(table.Columns, e).Throws? ==> text == Throws(ArgumentOutOfRange)
      ensures RowValues(table.Columns, e).Ok? ==>
        text == RowText(table.Columns, RowValues(table.Columns, e).value, table.MaxWidth - table.usedWidth)
    {
      match RowValues(table.Columns, e) {
        case Throws(x) =>
          text := Throws(x);
        case Ok(values) =>
          text := table.PrintRow(values);
      }
    }

    /** Not implemented by the table printer. */
    method TakeDescribedEvent(e: Event, description: string) returns (text: Result<string>)
      ensures text == Throws(NotImplemented)
    {
      text := Throws(NotImplemented);
    }
  }

  // ---------------------------------------------------------------------
  // The raw printer
  // ---------------------------------------------------------------------

  class EveryEventPrinter {
    constructor ()
    {
    }

    /** Prints the raw text of the event on its own line. */
    method TakeEvent(e: Event, osProcessName: string) returns (text: string)
      ensures text == RawString(e, osProcessName) + "\n"
    {
      var s := AsRawString(e, osProcessName);
      text := TakeDescribedEvent(e, s);
    }

    /** Prints the text it is given instead of rendering the event. */
    method TakeDescribedEvent(e: Event, description: string) returns (text: string)
      ensures text == description + "\n"
    {
      text := description + "\n";
    }
  }

  // ---------------------------------------------------------------------
  // Counting
  // ---------------------------------------------------------------------

  /** The map after adding `v` to the count of `k` (a missing key starts
      from 0). Its properties are stated by IncrementEffect. */
  function Increment(m: map<string, nat>, k: string, v: nat): map<string, nat>
  {
    if k in m then m[k := m[k] + v] else m[k := v]
  }

  /** Adding to a key: the key is present afterwards with its old count
      (0 when it was missing) plus `v`, and every other key keeps its
      count. */
  lemma IncrementEffect(m: map<string, nat>, k: string, v: nat)
    ensures Increment(m, k, v).Keys == m.Keys + {k}
    ensures Increment(m, k, v)[k] == (if k in m then m[k] else 0) + v
    ensures forall j :: j in m && j != k ==> Increment(m, k, v)[j] == m[j]
  {
  }

  lemma IncrementExample()
    ensures Increment(Increment(Increment(Increment(map[], "A", 1), "A", 1), "A", 1), "A", 2)["A"] == 5
  {
  }

  /** The counts of a dictionary that started empty and was given `Add(k)`
      for every key `k` of `ks`, in order. */
  function CountsOf(ks: seq<string>): map<string, nat>
    decreases |ks|
  {
    if ks == [] then map[] else Increment(CountsOf(ks[..|ks| - 1]), ks[|ks| - 1], 1)
  }

  /** One more key is one more `Add`. */
  lemma CountsOfStep(ks: seq<string>, k: string)
    ensures CountsOf(ks + [k]) == Increment(CountsOf(ks), k, 1)
  {
    assert (ks + [k])[..|ks|] == ks;
  }

  /** The counts are the number of times each key was added: a key is
      present exactly when it occurs, with its number of occurrences. */
  lemma {:induction false} CountsOfOccurrences(ks: seq<string>, k: string)
    ensures k in CountsOf(ks) <==> k in multiset(ks)
    ensures k in CountsOf(ks) ==> CountsOf(ks)[k] == multiset(ks)[k]
    decreases |ks|
  {
    if ks != [] {
      var init, last := ks[..|ks| - 1], ks[|ks| - 1];
      assert ks == init + [last];
      assert multiset(ks) == multiset(init) + multiset{last};
      CountsOfOccurrences(init, k);
    }
  }

  /** Sum of the counts of the keys `ks`. */
  function SumCounts(ks: seq<string>, m: map<string, nat>): nat
  {
    if ks == [] then 0 else (if ks[0] in m then m[ks[0]] else 0) + SumCounts(ks[1..], m)
  }

  lemma {:induction false} SumCountsAppend(ks: seq<string>, k: string, m: map<string, nat>)
    ensures SumCounts(ks + [k], m) == SumCounts(ks, m) + (if k in m then m[k] else 0)
    decreases |ks|
  {
    if ks == [] {
      assert ks + [k] == [k];
    } else {
      assert (ks + [k])[1..] == ks[1..] + [k];
      SumCountsAppend(ks[1..], k, m);
    }
  }

  lemma {:induction false} SumCountsIgnores(ks: seq<string>, m: map<string, nat>, k: string, v: nat)
    requires forall i :: 0 <= i < |ks| ==> ks[i] != k
    ensures SumCounts(ks, m[k := v]) == SumCounts(ks, m)
    decreases |ks|
  {
    if ks != [] {
      SumCountsIgnores(ks[1..], m, k, v);
    }
  }

  lemma {:induction false} SumCountsBump(ks: seq<string>, m: map<string, nat>, k: string, v: nat)
    requires k in m
    requires forall i, j :: 0 <= i < j < |ks| ==> ks[i] != ks[j]
    requires exists i :: 0 <= i < |ks| && ks[i] == k
    ensures SumCounts(ks, m[k := m[k] + v]) == SumCounts(ks, m) + v
    decreases |ks|
  {
    if ks[0] == k {
      SumCountsIgnores(ks[1..], m, k, m[k] + v);
    } else {
      var i :| 0 <= i < |ks| && ks[i] == k;
      assert ks[1..][i - 1] == k;
      SumCountsBump(ks[1..], m, k, v);
    }
  }

  /** The counts always add up: adding `v` to a key raises the total of
      the dictionary by exactly `v`. */
  lemma IncrementTotal(ks: seq<string>, m: map<string, nat>, k: string, v: nat)
    requires forall j :: j in m <==> j in ks
    requires forall i, j :: 0 <= i < j < |ks| ==> ks[i] != ks[j]
    ensures SumCounts(if k in m then ks else ks + [k], Increment(m, k, v)) == SumCounts(ks, m) + v
  {
    if k in m {
      SumCountsBump(ks, m, k, v);
    } else {
      SumCountsAppend(ks, k, m[k := v]);
      SumCountsIgnores(ks, m, k, v);
    }
  }

  // ---------------------------------------------------------------------
  // Ranking by descending count
  // ---------------------------------------------------------------------

  predicate Descending(s: seq<Entry>)
  {
    forall i, j :: 0 <= i < j < |s| ==> s[i].count >= s[j].count
  }

  predicate DistinctKeys(s: seq<Entry>)
  {
    forall i, j :: 0 <= i < j < |s| ==> s[i].key != s[j].key
  }

  /** Inserts before the first entry with a count not above x's. */
  function Insert(x: Entry, s: seq<Entry>): (r: seq<Entry>)
    ensures |r| == |s| + 1
  {
    if s == [] then [x]
    else if x.count >= s[0].count then [x] + s
    else [s[0]] + Insert(x, s[1..])
  }

  /** Entries ordered by descending count (insertion sort). */
  function SortByCount(s: seq<Entry>): (r: seq<Entry>)
    ensures |r| == |s|
  {
    if s == [] then [] else Insert(s[0], SortByCount(s[1..]))
  }

  lemma {:induction false} InsertMultiset(x: Entry, s: seq<Entry>)
    ensures multiset(Insert(x, s)) == multiset(s) + multiset{x}
    decreases |s|
  {
    if s != [] && x.count < s[0].count {
      InsertMultiset(x, s[1..]);
      assert s == [s[0]] + s[1..];
    }
  }

  /** Every entry of Insert(x, s) is x or an entry of s. */
  lemma InsertMembers(x: Entry, s: seq<Entry>, i: nat)
    requires i < |Insert(x, s)|
    ensures Insert(x, s)[i] == x || exists j :: 0 <= j < |s| && s[j] == Insert(x, s)[i]
  {
    InsertMultiset(x, s);
    assert Insert(x, s)[i] in multiset(Insert(x, s));
  }

  lemma {:induction false} InsertDescending(x: Entry, s: seq<Entry>)
    requires Descending(s)
    ensures Descending(Insert(x, s))
    decreases |s|
  {
    if s != [] && x.count < s[0].count {
      var rest := Insert(x, s[1..]);
      InsertDescending(x, s[1..]);
      forall i | 0 <= i < |rest| ensures rest[i].count <= s[0].count {
        InsertMembers(x, s[1..], i);
      }
      assert Insert(x, s) == [s[0]] + rest;
    }
  }

  lemma {:induction false} InsertDistinct(x: Entry, s: seq<Entry>)
    requires DistinctKeys(s)
    requires forall i :: 0 <= i < |s| ==> s[i].key != x.key
    ensures DistinctKeys(Insert(x, s))
    decreases |s|
  {
    if s != [] && x.count < s[0].count {
      var rest := Insert(x, s[1..]);
      InsertDistinct(x, s[1..]);
      forall i | 0 <= i < |rest| ensures rest[i].key != s[0].key {
        InsertMembers(x, s[1..], i);
      }
      assert Insert(x, s) == [s[0]] + rest;
    }
  }

  /** Sorting yields a descending permutation. */
  lemma {:induction false} SortByCountFacts(s: seq<Entry>)
    ensures Descending(SortByCount(s))
    ensures multiset(SortByCount(s)) == multiset(s)
    decreases |s|
  {
    if s != [] {
      SortByCountFacts(s[1..]);
      InsertDescending(s[0], SortByCount(s[1..]));
      InsertMultiset(s[0], SortByCount(s[1..]));
      assert s == [s[0]] + s[1..];
    }
  }

  /** Sorting keeps keys distinct. */
  lemma {:induction false} SortByCountDistinct(s: seq<Entry>)
    requires DistinctKeys(s)
    ensures DistinctKeys(SortByCount(s))
    decreases |s|
  {
    if s != [] {
      var rest := SortByCount(s[1..]);
      SortByCountDistinct(s[1..]);
      SortByCountFacts(s[1..]);
      forall i | 0 <= i < |rest| ensures rest[i].key != s[0].key {
        assert rest[i] in multiset(s[1..]);
        var j :| 0 <= j < |s[1..]| && s[1..][j] == rest[i];
        assert s[j + 1] == rest[i];
      }
      InsertDistinct(s[0], rest);
    }
  }

  /** The entries of the keys `ks`, in that order. */
  function Entries(ks: seq<string>, m: map<string, nat>): (r: seq<Entry>)
    requires forall i :: 0 <= i < |ks| ==> ks[i] in m
    ensures |r| == |ks| && forall i :: 0 <= i < |ks| ==> r[i] == Entry(ks[i], m[ks[i]])
  {
    seq(|ks|, i requires 0 <= i < |ks| => Entry(ks[i], m[ks[i]]))
  }

  /** The ranked entries of a dictionary: each key once, with its count,
      by non-increasing count. */
  lemma ReportFacts(ks: seq<string>, m: map<string, nat>)
    requires forall k :: k in m <==> k in ks
    requires forall i, j :: 0 <= i < j < |ks| ==> ks[i] != ks[j]
    ensures Descending(SortByCount(Entries(ks, m))) && DistinctKeys(SortByCount(Entries(ks, m)))
    ensures forall i :: 0 <= i < |SortByCount(Entries(ks, m))| ==>
      SortByCount(Entries(ks, m))[i].key in m &&
      SortByCount(Entries(ks, m))[i].count == m[SortByCount(Entries(ks, m))[i].key]
    ensures forall k :: k in m ==> exists i :: 0 <= i < |SortByCount(Entries(ks, m))| && SortByCount(Entries(ks, m))[i].key == k
  {
    var entries := Entries(ks, m);
    var r := SortByCount(entries);
    SortByCountFacts(entries);
    SortByCountDistinct(entries);
    forall i | 0 <= i < |r| ensures r[i].key in m && r[i].count == m[r[i].key] {
      assert r[i] in multiset(entries);
    }
    forall k | k in m ensures exists i :: 0 <= i < |r| && r[i].key == k {
      var j :| 0 <= j < |ks| && ks[j] == k;
      assert entries[j] in multiset(r);
      var i :| 0 <= i < |r| && r[i] == entries[j];
    }
  }

  /** A key to count accumulator. `keys` is the order in which the
      dictionary enumerates its keys: the order they were first added. */
  class CountingDictionary {
    var counts: map<string, nat>
    var keys: seq<string>

    ghost predicate Valid()
      reads this
    {
      (forall k :: k in counts <==> k in keys) &&
      (forall i, j :: 0 <= i < j < |keys| ==> keys[i] != keys[j])
    }

    /** Sum of all counts. */
    ghost function Total(): nat
      reads this
    {
      SumCounts(keys, counts)
    }

    constructor ()
      ensures Valid() && counts == map[] && keys == [] && Total() == 0
    {
      counts := map[];
      keys := [];
    }

    method Add(key: string, value: nat := 1)
      requires Valid()
      modifies this
      ensures Valid()
      ensures counts == Increment(old(counts), key, value)
      ensures keys == if key in old(counts) then old(keys) else old(keys) + [key]
      ensures Total() == old(Total()) + value
    {
      IncrementTotal(keys, counts, key, value);
      if key in counts {
        counts := counts[key := counts[key] + value];
      } else {
        counts := counts[key := value];
        keys := keys + [key];
      }
    }

    /** The (key, count) rows of the report: every key exactly once, by
        non-increasing count. */
    function Report(): (r: seq<Entry>)
      reads this
      requires Valid()
      ensures Descending(r) && DistinctKeys(r)
      ensures forall i :: 0 <= i < |r| ==> r[i].key in counts && r[i].count == counts[r[i].key]
      ensures forall k :: k in counts ==> exists i :: 0 <= i < |r| && r[i].key == k
    {
      ReportFacts(keys, counts);
      SortByCount(Entries(keys, counts))
    }

    /** Writes the report under a caption, as a table with a key and a
        count column. */
    method Print(header: string, key: string) returns (out: Output)
      requires Valid()
      ensures out == CountTable(header, key, Report())
    {
      out := CountTable(header, key, Report());
    }
  }

  // ---------------------------------------------------------------------
  // The statistics aggregator
  // ---------------------------------------------------------------------

  /** The names, and the process names, of a list of events in order. */
  function EventNames(events: seq<Event>): (r: seq<string>)
    ensures |r| == |events| && forall i :: 0 <= i < |events| ==> r[i] == events[i].eventName
  {
    seq(|events|, i requires 0 <= i < |events| => events[i].eventName)
  }

  function ProcessNames(events: seq<Event>): (r: seq<string>)
    ensures |r| == |events| && forall i :: 0 <= i < |events| ==> r[i] == events[i].processName
  {
    seq(|events|, i requires 0 <= i < |events| => events[i].processName)
  }

  /** Taking one more event adds one to its name and to its process. */
  lemma TakenStep(events: seq<Event>, e: Event)
    ensures CountsOf(EventNames(events + [e])) == Increment(CountsOf(EventNames(events)), e.eventName, 1)
    ensures CountsOf(ProcessNames(events + [e])) == Increment(CountsOf(ProcessNames(events)), e.processName, 1)
  {
    assert EventNames(events + [e]) == EventNames(events) + [e.eventName];
    assert ProcessNames(events + [e]) == ProcessNames(events) + [e.processName];
    CountsOfStep(EventNames(events), e.eventName);
    CountsOfStep(ProcessNames(events), e.processName);
  }

  class EventStatisticsAggregator {
    const countByEventName: CountingDictionary
    const countByProcess: CountingDictionary
    var disposed: bool

    ghost function Repr(): set<object>
    {
      {this} + Counters()
    }

    /** The two dictionaries: all that taking an event changes. */
    ghost function Counters(): set<object>
    {
      {countByEventName, countByProcess}
    }

    ghost predicate Valid()
      reads Counters()
    {
      countByEventName != countByProcess &&
      countByEventName.Valid() && countByProcess.Valid()
    }

    /** Both dictionaries count each of `events` exactly once: the one by
        name holds the counts of their names, the one by process those of
        their process names. */
    ghost predicate Counted(events: seq<Event>)
      reads Counters()
    {
      countByEventName.Total() == |events| && countByProcess.Total() == |events| &&
      countByEventName.counts == CountsOf(EventNames(events)) &&
      countByProcess.counts == CountsOf(ProcessNames(events))
    }

    constructor ()
      ensures Valid() && Counted([]) && !disposed
      ensures countByEventName.counts == map[] && countByProcess.counts == map[]
      ensures fresh(countByEventName) && fresh(countByProcess)
    {
      countByEventName := new CountingDictionary();
      countByProcess := new CountingDictionary();
      disposed := false;
    }

    /** Counts the event under its name and under its process name. */
    method TakeEvent(e: Event)
      requires Valid()
      modifies Counters()
      ensures Valid()
      ensures countByEventName.counts == Increment(old(countByEventName.counts), e.eventName, 1)
      ensures countByProcess.counts == Increment(old(countByProcess.counts), e.processName, 1)
      ensures countByEventName.Total() == old(countByEventName.Total()) + 1
      ensures countByProcess.Total() == old(countByProcess.Total()) + 1
    {
      countByEventName.Add(e.eventName);
      countByProcess.Add(e.processName);
    }

    /** The description is ignored: the same as TakeEvent. */
    method TakeDescribedEvent(e: Event, description: string)
      requires Valid()
      modifies Counters()
      ensures Valid()
      ensures countByEventName.counts == Increment(old(countByEventName.counts), e.eventName, 1)
      ensures countByProcess.counts == Increment(old(countByProcess.counts), e.processName, 1)
      ensures countByEventName.Total() == old(countByEventName.Total()) + 1
      ensures countByProcess.Total() == old(countByProcess.Total()) + 1
    {
      TakeEvent(e);
    }

    /** Taking one more event keeps the dictionaries counting every event
        taken: what TakeEvent does to counts of `events` makes them the
        counts of `events + [e]`. */
    lemma {:induction false} CountedStep(events: seq<Event>, e: Event,
        byName: map<string, nat>, byProcess: map<string, nat>, nameTotal: nat, processTotal: nat)
      requires byName == CountsOf(EventNames(events)) && byProcess == CountsOf(ProcessNames(events))
      requires nameTotal == |events| && processTotal == |events|
      requires countByEventName.counts == Increment(byName, e.eventName, 1)
      requires countByProcess.counts == Increment(byProcess, e.processName, 1)
      requires countByEventName.Total() == nameTotal + 1 && countByProcess.Total() == processTotal + 1
      ensures Counted(events + [e])
    {
      TakenStep(events, e);
    }

    /** The reports count what was taken: every row of a report holds
        the number of taken events with its key, and every name (or process
        name) of a taken event has a row. */
    lemma ReportsCountTaken(taken: seq<Event>)
      requires Valid() && Counted(taken)
      ensures var r, names := countByEventName.Report(), multiset(EventNames(taken));
        (forall i :: 0 <= i < |r| ==> r[i].count == names[r[i].key]) &&
        (forall k :: k in names ==> exists i :: 0 <= i < |r| && r[i].key == k)
      ensures var r, names := countByProcess.Report(), multiset(ProcessNames(taken));
        (forall i :: 0 <= i < |r| ==> r[i].count == names[r[i].key]) &&
        (forall k :: k in names ==> exists i :: 0 <= i < |r| && r[i].key == k)
    {
      var byName, byProcess := countByEventName.Report(), countByProcess.Report();
      var names, processes := multiset(EventNames(taken)), multiset(ProcessNames(taken));
      forall i | 0 <= i < |byName| ensures byName[i].count == names[byName[i].key] {
        CountsOfOccurrences(EventNames(taken), byName[i].key);
      }
      forall k | k in names ensures exists i :: 0 <= i < |byName| && byName[i].key == k {
        CountsOfOccurrences(EventNames(taken), k);
      }
      forall i | 0 <= i < |byProcess| ensures byProcess[i].count == processes[byProcess[i].key] {
        CountsOfOccurrences(ProcessNames(taken), byProcess[i].key);
      }
      forall k | k in processes ensures exists i :: 0 <= i < |byProcess| && byProcess[i].key == k {
        CountsOfOccurrences(ProcessNames(taken), k);
      }
    }

    /** Prints both reports on the first call only. */
    method Dispose() returns (out: seq<Output>)
      requires Valid()
      modifies this`disposed
      ensures Valid() && disposed
      ensures old(disposed) ==> out == []
      ensures !old(disposed) ==> out == [CountTable("Events by name", "Event", countByEventName.Report()),
                                         CountTable("Events by process", "Process", countByProcess.Report())]
    {
      if disposed {
        return [];
      }
      disposed := true;
      var byName := countByEventName.Print("Events by name", "Event");
      var byProcess := countByProcess.Print("Events by process", "Process");
      out := [byName, byProcess];
    }
  }
}
