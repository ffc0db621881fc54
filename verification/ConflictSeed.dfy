/** The conflict seed: query bindings folded into one row per item, and the names the missing rows take.
    Labels come stripped and items as their ids. */
module ConflictSeed {
  import opened Basics

  const NAME_MAX_LENGTH := 200

  datatype Binding = Binding(qid: string, name: string, start: string, end: Option<string>)

  datatype Row = Row(qid: string, name: string, start: nat, end: Option<nat>)

  // ---- Years

  predicate IsDigit(c: char) {
    '0' <= c <= '9'
  }

  function Number(digits: string): nat
    requires forall c :: c in digits ==> IsDigit(c)
  {
    if digits == [] then 0
    else
      assert Last(digits) in digits && IsDigit(Last(digits));
      Number(Init(digits)) * 10 + (Last(digits) as int - '0' as int)
  }

  function Head(value: string): string {
    if |value| <= 4 then value else value[..4]
  }

  /** The year a date starts with; a value that does not start with digits has none. */
  function Year(value: string): (y: Option<nat>)
    ensures y.Some? ==> y.value < 10000
  {
    if Head(value) == [] || exists c :: c in Head(value) && !IsDigit(c) then None
    else
      NumberBound(Head(value));
      Some(Number(Head(value)))
  }

  /** A value has a year exactly when its first four characters, or all it has, are digits; a full date's is
      the number those four write. */
  lemma YearOfDate(value: string)
    ensures Year(value).Some? <==> value != "" && forall i :: 0 <= i < 4 && i < |value| ==> IsDigit(value[i])
    ensures Year(value).Some? && |value| >= 4 ==> Year(value).value == FourDigitYear(value)
  {
    var head := Head(value);
    assert forall i :: 0 <= i < |head| ==> head[i] == value[i] && head[i] in head;
    if Year(value).Some? && |value| >= 4 {
      assert head == [value[0], value[1], value[2], value[3]];
      FourDigitNumber(value[0], value[1], value[2], value[3]);
    }
  }

  function Digit(c: char): int {
    c as int - '0' as int
  }

  function FourDigitYear(value: string): int
    requires |value| >= 4
  {
    1000 * Digit(value[0]) + 100 * Digit(value[1]) + 10 * Digit(value[2]) + Digit(value[3])
  }

  lemma FourDigitNumber(a: char, b: char, c: char, d: char)
    requires IsDigit(a) && IsDigit(b) && IsDigit(c) && IsDigit(d)
    ensures Number([a, b, c, d]) == 1000 * Digit(a) + 100 * Digit(b) + 10 * Digit(c) + Digit(d)
  {
    assert Init([a, b, c, d]) == [a, b, c] && Init([a, b, c]) == [a, b] && Init([a, b]) == [a] && Init([a]) == [];
    assert Number([a]) == Digit(a);
    assert Number([a, b]) == 10 * Digit(a) + Digit(b);
    assert Number([a, b, c]) == 100 * Digit(a) + 10 * Digit(b) + Digit(c);
  }

  function Power(n: nat): nat {
    if n == 0 then 1 else 10 * Power(n - 1)
  }

  lemma {:induction false} NumberBound(digits: string)
    requires forall c :: c in digits ==> IsDigit(c)
    ensures Number(digits) < Power(|digits|)
    ensures |digits| <= 4 ==> Number(digits) < 10000
  {
    if digits != [] {
      NumberBound(Init(digits));
      assert Last(digits) in digits && IsDigit(Last(digits));
    }
    assert Power(1) == 10 && Power(2) == 100 && Power(3) == 1000 && Power(4) == 10000;
  }

  /** A binding with its years read. */
  datatype Dated = Dated(qid: string, name: string, start: Option<nat>, end: Option<nat>)

  function Read(b: Binding): (d: Dated)
    ensures d.start.Some? ==> d.start.value < 10000
  {
    Dated(b.qid, b.name, Year(b.start), if b.end.Some? then Year(b.end.value) else None)
  }

  /** Each of a binding's dates is read for itself, and an absent end is none. */
  lemma ReadsEachDate(b: Binding)
    ensures Read(b).qid == b.qid && Read(b).name == b.name && Read(b).start == Year(b.start)
    ensures b.end.Some? ==> Read(b).end == Year(b.end.value)
    ensures b.end.None? ==> Read(b).end.None?
  {
  }

  // ---- The fold

  /** A further binding of an item meets the row so far: the earlier start, the later end, no end once
      either has none, and the first name. */
  function Merge(prev: Row, row: Row): Row {
    Row(row.qid, prev.name, if row.start < prev.start then row.start else prev.start,
        if row.end.None? || prev.end.None? then None
        else Some(if row.end.value > prev.end.value then row.end.value else prev.end.value))
  }

  function RowOf(b: Dated): Row
    requires b.start.Some?
  {
    Row(b.qid, b.name, b.start.value, b.end)
  }

  function Folded(bindings: seq<Dated>): map<string, Row> {
    if bindings == [] then map[]
    else
      var before, b := Folded(Init(bindings)), Last(bindings);
      if b.start.None? then before
      else before[b.qid := if b.qid in before then Merge(before[b.qid], RowOf(b)) else RowOf(b)]
  }

  /** The bindings that count towards an item. */
  predicate About(b: Dated, qid: string) {
    b.qid == qid && b.start.Some?
  }

  /** An item's start, whatever the order: the least of its bindings. */
  ghost predicate StartIs(bindings: seq<Dated>, qid: string, start: nat) {
    && (forall b :: b in bindings && About(b, qid) ==> start <= b.start.value)
    && exists b :: b in bindings && About(b, qid) && b.start.value == start
  }

  /** Its end: none when some binding has none, else the greatest. */
  ghost predicate EndIs(bindings: seq<Dated>, qid: string, end: Option<nat>) {
    if end.None? then exists b :: b in bindings && About(b, qid) && b.end.None?
    else
      && (forall b :: b in bindings && About(b, qid) ==> b.end.Some? && b.end.value <= end.value)
      && exists b :: b in bindings && About(b, qid) && b.end == end
  }

  ghost predicate Known(bindings: seq<Dated>, qid: string) {
    exists b :: b in bindings && About(b, qid)
  }

  lemma StartMore(bindings: seq<Dated>, b: Dated, start: nat)
    requires About(b, b.qid) && StartIs(bindings, b.qid, start)
    ensures StartIs(bindings + [b], b.qid, if b.start.value < start then b.start.value else start)
  {
  }

  lemma EndMore(bindings: seq<Dated>, b: Dated, end: Option<nat>)
    requires About(b, b.qid) && EndIs(bindings, b.qid, end)
    ensures EndIs(bindings + [b], b.qid, if end.None? || b.end.None? then None
                                         else if end.value < b.end.value then b.end else end)
  {
  }

  lemma FirstBinding(bindings: seq<Dated>, b: Dated)
    requires About(b, b.qid) && !Known(bindings, b.qid)
    ensures StartIs(bindings + [b], b.qid, b.start.value) && EndIs(bindings + [b], b.qid, b.end)
  {
  }

  lemma OtherItem(bindings: seq<Dated>, b: Dated, qid: string)
    requires !About(b, qid)
    ensures Known(bindings + [b], qid) <==> Known(bindings, qid)
    ensures forall start :: StartIs(bindings, qid, start) ==> StartIs(bindings + [b], qid, start)
    ensures forall end :: EndIs(bindings, qid, end) ==> EndIs(bindings + [b], qid, end)
  {
  }

  /** The fold holds one row per item with a usable binding, and its years are the extremes. */
  lemma {:induction false} FoldIsExtremes(bindings: seq<Dated>, qid: string)
    ensures qid in Folded(bindings) <==> Known(bindings, qid)
    ensures qid in Folded(bindings) ==>
              var row := Folded(bindings)[qid];
              row.qid == qid && StartIs(bindings, qid, row.start) && EndIs(bindings, qid, row.end)
  {
    if bindings != [] {
      var before, b := Init(bindings), Last(bindings);
      FoldIsExtremes(before, qid);
      assert bindings == before + [b];
      if !About(b, qid) {
        OtherItem(before, b, qid);
      } else {
        assert b in bindings;
        if qid in Folded(before) {
          StartMore(before, b, Folded(before)[qid].start);
          EndMore(before, b, Folded(before)[qid].end);
        } else {
          FirstBinding(before, b);
        }
      }
    }
  }

  lemma OneStart(a: seq<Dated>, b: seq<Dated>, qid: string, x: nat, y: nat)
    requires (forall d :: d in a <==> d in b) && StartIs(a, qid, x) && StartIs(b, qid, y)
    ensures x == y
  {
  }

  lemma OneEnd(a: seq<Dated>, b: seq<Dated>, qid: string, x: Option<nat>, y: Option<nat>)
    requires (forall d :: d in a <==> d in b) && EndIs(a, qid, x) && EndIs(b, qid, y)
    ensures x == y
  {
  }

  /** The years do not depend on the order the query returned its bindings in, nor on repeats. */
  lemma YearsIgnoreOrder(a: seq<Dated>, b: seq<Dated>, qid: string)
    requires forall x :: x in a <==> x in b
    ensures qid in Folded(a) <==> qid in Folded(b)
    ensures qid in Folded(a) ==>
            Folded(a)[qid].start == Folded(b)[qid].start && Folded(a)[qid].end == Folded(b)[qid].end
  {
    FoldIsExtremes(a, qid);
    FoldIsExtremes(b, qid);
    if qid in Folded(a) {
      OneStart(a, b, qid, Folded(a)[qid].start, Folded(b)[qid].start);
      OneEnd(a, b, qid, Folded(a)[qid].end, Folded(b)[qid].end);
    }
  }

  /** The name is that of an item's first usable binding. */
  lemma {:induction false} FirstNameKept(bindings: seq<Dated>, qid: string) returns (i: nat)
    requires qid in Folded(bindings)
    ensures i < |bindings| && About(bindings[i], qid) && Folded(bindings)[qid].name == bindings[i].name
    ensures forall j :: 0 <= j < i ==> !About(bindings[j], qid)
  {
    if qid in Folded(Init(bindings)) {
      i := FirstNameKept(Init(bindings), qid);
    } else {
      i := |bindings| - 1;
      FoldIsExtremes(Init(bindings), qid);
      forall j | 0 <= j < i ensures !About(bindings[j], qid) {
        assert Init(bindings)[j] in Init(bindings);
      }
    }
  }

  // ---- The sorted rows

  predicate Less(a: Row, b: Row) {
    a.start < b.start || (a.start == b.start && Before(a.name, b.name))
  }

  predicate InOrder(rows: seq<Row>) {
    forall i, j :: 0 <= i < j < |rows| ==> !Less(rows[j], rows[i])
  }

  /** Insert after the rows it does not precede. */
  function Place(row: Row, rows: seq<Row>): seq<Row> {
    if rows == [] || Less(row, rows[0]) then [row] + rows else [rows[0]] + Place(row, rows[1..])
  }

  lemma {:induction false} PlaceKeepsOrder(row: Row, rows: seq<Row>)
    requires InOrder(rows)
    ensures InOrder(Place(row, rows)) && forall x :: x in Place(row, rows) <==> x == row || x in rows
  {
    if rows != [] {
      assert rows == [rows[0]] + rows[1..];
      if Less(row, rows[0]) {
        BeforeIrreflexive(row.name);
        forall j | 0 <= j < |rows| ensures !Less(rows[j], row) {
          if Less(rows[j], row) {
            LessBoth(rows[j], row, rows[0]);
          }
        }
      } else {
        PlaceKeepsOrder(row, rows[1..]);
        var rest := Place(row, rows[1..]);
        forall j | 0 <= j < |rest| ensures !Less(rest[j], rows[0]) {
          assert rest[j] in rest;
        }
      }
    }
  }

  lemma {:induction false} PlaceKeepsDistinct(row: Row, rows: seq<Row>)
    requires Distinct(rows) && row !in rows
    ensures Distinct(Place(row, rows)) && forall x :: x in Place(row, rows) <==> x == row || x in rows
  {
    if rows != [] {
      assert rows == [rows[0]] + rows[1..];
      if !Less(row, rows[0]) {
        PlaceKeepsDistinct(row, rows[1..]);
        var rest := Place(row, rows[1..]);
        forall j | 0 <= j < |rest| ensures rest[j] != rows[0] {
          assert rest[j] in rest;
        }
      }
    }
  }

  lemma LessBoth(a: Row, b: Row, c: Row)
    requires Less(a, b) && Less(b, c)
    ensures Less(a, c) && !Less(c, a)
  {
    if a.start == b.start == c.start {
      BeforeTransitive(a.name, b.name, c.name);
      if Before(c.name, a.name) {
        BeforeTransitive(c.name, a.name, c.name);
        BeforeIrreflexive(c.name);
      }
    }
  }

  function ReadAll(bindings: seq<Binding>): (dated: seq<Dated>)
    ensures |dated| == |bindings|
    ensures forall i :: 0 <= i < |bindings| ==> dated[i] == Read(bindings[i])
  {
    seq(|bindings|, i requires 0 <= i < |bindings| => Read(bindings[i]))
  }

  /** The items of the fold in the order they were first seen. */
  ghost predicate Keys(order: seq<string>, folded: map<string, Row>) {
    Distinct(order) && forall qid :: qid in order <==> qid in folded
  }

  /** The query's loop over its bindings. */
  method FoldBindings(bindings: seq<Dated>) returns (byQid: map<string, Row>, order: seq<string>)
    ensures byQid == Folded(bindings) && Keys(order, byQid)
  {
    byQid, order := map[], [];
    for i := 0 to |bindings|
      invariant byQid == Folded(bindings[..i]) && Keys(order, byQid)
    {
      assert Init(bindings[..i + 1]) == bindings[..i];
      var b := bindings[i];
      if b.start.Some? {
        var row := Row(b.qid, b.name, b.start.value, b.end);
        if b.qid in byQid {
          row := Merge(byQid[b.qid], row);
        } else {
          order := order + [b.qid];
        }
        byQid := byQid[b.qid := row];
      }
    }
    assert bindings[..|bindings|] == bindings;
  }

  ghost predicate Datable(rows: seq<Row>) {
    forall i :: 0 <= i < |rows| ==> rows[i].start < 10000
  }

  lemma FoldedYears(bindings: seq<Binding>, qid: string)
    requires qid in Folded(ReadAll(bindings))
    ensures Folded(ReadAll(bindings))[qid].qid == qid && Folded(ReadAll(bindings))[qid].start < 10000
  {
    FoldIsExtremes(ReadAll(bindings), qid);
    var b :| b in ReadAll(bindings) && About(b, qid) && b.start.value == Folded(ReadAll(bindings))[qid].start;
    var i :| 0 <= i < |bindings| && ReadAll(bindings)[i] == b;
  }

  ghost predicate UniqueQids(rows: seq<Row>) {
    forall i, j :: 0 <= i < j < |rows| ==> rows[i].qid != rows[j].qid
  }

  /** An item's row has the name of its first usable binding. */
  predicate NamedFirst(bindings: seq<Dated>, row: Row) {
    exists i :: 0 <= i < |bindings| && About(bindings[i], row.qid) && bindings[i].name == row.name
                && forall j :: 0 <= j < i ==> !About(bindings[j], row.qid)
  }

  /** Query and fold: one row per item, by start year and then name. */
  method FetchRows(bindings: seq<Binding>) returns (rows: seq<Row>)
    ensures InOrder(rows) && UniqueQids(rows) && Datable(rows)
    ensures var folded := Folded(ReadAll(bindings));
            forall row :: row in rows <==> row.qid in folded && folded[row.qid] == row
    ensures forall row :: row in rows ==> NamedFirst(ReadAll(bindings), row)
    ensures forall i, j :: 0 <= i < j < |rows| ==>
              rows[i].start < rows[j].start || (rows[i].start == rows[j].start && !Before(rows[j].name, rows[i].name))
  {
    var dated := ReadAll(bindings);
    var byQid, order := FoldBindings(dated);
    forall qid | qid in byQid ensures byQid[qid].qid == qid && byQid[qid].start < 10000 {
      FoldedYears(bindings, qid);
    }
    rows := [];
    for i := 0 to |order|
      invariant InOrder(rows) && Distinct(rows)
      invariant forall row :: row in rows <==> row.qid in order[..i] && byQid[row.qid] == row
    {
      var row := byQid[order[i]];
      PlaceKeepsOrder(row, rows);
      PlaceKeepsDistinct(row, rows);
      rows := Place(row, rows);
    }
    assert order[..|order|] == order;
    forall i, j | 0 <= i < j < |rows|
      ensures rows[i].start < rows[j].start || (rows[i].start == rows[j].start && !Before(rows[j].name, rows[i].name))
    {
      assert !Less(rows[j], rows[i]);
    }
    forall row | row in rows ensures NamedFirst(dated, row) {
      var first := FirstNameKept(dated, row.qid);
    }
    assert forall i :: 0 <= i < |rows| ==> rows[i] in rows;
    forall i, j | 0 <= i < j < |rows| ensures rows[i].qid != rows[j].qid {
      assert rows[i] in rows && rows[j] in rows && rows[i] != rows[j];
    }
  }

  // ---- The names

  function Decimal(n: nat): string {
    if n < 10 then [('0' as int + n) as char] else Decimal(n / 10) + [('0' as int + n % 10) as char]
  }

  lemma FourDigits(n: nat)
    requires n < 10000
    ensures |Decimal(n)| <= 4
  {
    if n >= 10 {
      assert |Decimal(n)| == |Decimal(n / 10)| + 1;
      if n >= 100 {
        assert |Decimal(n / 10)| == |Decimal(n / 10 / 10)| + 1;
        if n >= 1000 {
          assert |Decimal(n / 10 / 10)| == |Decimal(n / 10 / 10 / 10)| + 1;
        }
      }
    }
  }

  function Cut(name: string, length: int): string
    requires length >= 0
  {
    if |name| <= length then name else name[..length]
  }

  function Suffix(start: nat): string {
    " (" + Decimal(start) + ")"
  }

  /** The name a row asks for first, and the one it falls back to. */
  function Plain(row: Row): string {
    Cut(row.name, NAME_MAX_LENGTH)
  }

  function Suffixed(row: Row): string
    requires row.start < 10000
  {
    FourDigits(row.start);
    Cut(Plain(row), NAME_MAX_LENGTH - |Suffix(row.start)|) + Suffix(row.start)
  }

  /** The first characters of a name, and the year it is told apart by. */
  lemma NamesAre(row: Row)
    requires row.start < 10000
    ensures Plain(row) == if |row.name| <= 200 then row.name else row.name[..200]
    ensures var year := " (" + Decimal(row.start) + ")";
            && |year| <= 7
            && Suffixed(row) == (if |row.name| <= 200 - |year| then row.name else row.name[..200 - |year|]) + year
  {
    FourDigits(row.start);
  }

  /** A number is written in its digits, with no zero ahead of them. */
  lemma {:induction false} DecimalReads(n: nat)
    ensures Decimal(n) != "" && (forall c :: c in Decimal(n) ==> IsDigit(c)) && Number(Decimal(n)) == n
    ensures n > 0 ==> Decimal(n)[0] != '0'
  {
    if n < 10 {
      assert Init(Decimal(n)) == [];
    } else {
      DecimalReads(n / 10);
      assert Init(Decimal(n)) == Decimal(n / 10);
    }
  }

  datatype Fate = Present | Inserted(name: string) | Skipped

  /** A row already there is left alone; another takes its plain name if that is free, its name with the year
      if only that one is, and is skipped when neither is. */
  lemma DecidesInOrder(row: Row, existing: set<string>, taken: set<string>)
    requires row.start < 10000
    ensures var fate, plain, dated := Decide(row, existing, taken), Plain(row), Suffixed(row);
            && (fate.Present? <==> row.qid in existing)
            && (fate.Skipped? <==> row.qid !in existing && plain in taken && dated in taken)
            && (row.qid !in existing && plain !in taken ==> fate == Inserted(plain))
            && (row.qid !in existing && plain in taken && dated !in taken ==> fate == Inserted(dated))
  {
  }

  function Decide(row: Row, existing: set<string>, taken: set<string>): Fate
    requires row.start < 10000
  {
    if row.qid in existing then Present
    else if Plain(row) !in taken then Inserted(Plain(row))
    else if Suffixed(row) !in taken then Inserted(Suffixed(row))
    else Skipped
  }

  function Names(fates: seq<Fate>): seq<string> {
    if fates == [] then []
    else Names(Init(fates)) + if Last(fates).Inserted? then [Last(fates).name] else []
  }

  /** The rows a run inserts, under their names, and those it reports. */
  function Chosen(rows: seq<Row>, fates: seq<Fate>): seq<Row>
    requires |rows| == |fates|
  {
    if rows == [] then []
    else Chosen(Init(rows), Init(fates)) + if Last(fates).Inserted? then [Last(rows).(name := Last(fates).name)] else []
  }

  function Reported(rows: seq<Row>, fates: seq<Fate>): seq<Row>
    requires |rows| == |fates|
  {
    if rows == [] then []
    else Reported(Init(rows), Init(fates)) + if Last(fates).Skipped? then [Last(rows)] else []
  }

  /** Each row's fate given the names taken before it. */
  ghost predicate Decided(rows: seq<Row>, fates: seq<Fate>, existing: set<string>, names: set<string>)
    requires |rows| == |fates| && Datable(rows)
  {
    forall i :: 0 <= i < |rows| ==> fates[i] == Decide(rows[i], existing, names + Elements(Names(fates[..i])))
  }

  function Elements(names: seq<string>): set<string> {
    set n | n in names
  }

  lemma NameFits(row: Row, existing: set<string>, taken: set<string>)
    requires row.start < 10000
    ensures var fate := Decide(row, existing, taken);
            fate.Inserted? ==> fate.name !in taken && |fate.name| <= NAME_MAX_LENGTH
  {
    FourDigits(row.start);
  }

  lemma DecidedInit(rows: seq<Row>, fates: seq<Fate>, existing: set<string>, names: set<string>)
    requires |rows| == |fates| && rows != [] && Datable(rows) && Decided(rows, fates, existing, names)
    ensures Decided(Init(rows), Init(fates), existing, names)
    ensures Last(fates) == Decide(Last(rows), existing, names + Elements(Names(Init(fates))))
  {
    forall i | 0 <= i < |rows| - 1
      ensures Init(fates)[i] == Decide(Init(rows)[i], existing, names + Elements(Names(Init(fates)[..i])))
    {
      assert Init(fates)[..i] == fates[..i];
    }
  }

  lemma {:induction false} NamesSound(rows: seq<Row>, fates: seq<Fate>, existing: set<string>, names: set<string>)
    requires |rows| == |fates| && Datable(rows) && Decided(rows, fates, existing, names)
    ensures Distinct(Names(fates))
    ensures forall n :: n in Names(fates) ==> n !in names && |n| <= NAME_MAX_LENGTH
  {
    if rows != [] {
      var before := Names(Init(fates));
      DecidedInit(rows, fates, existing, names);
      NamesSound(Init(rows), Init(fates), existing, names);
      NameFits(Last(rows), existing, names + Elements(before));
      assert forall i :: 0 <= i < |before| ==> before[i] in before;
    }
  }

  /** The names given are those of the inserted rows, in turn. */
  lemma {:induction false} NamesOfChosen(rows: seq<Row>, fates: seq<Fate>)
    requires |rows| == |fates|
    ensures |Chosen(rows, fates)| == |Names(fates)|
    ensures forall k :: 0 <= k < |Names(fates)| ==> Chosen(rows, fates)[k].name == Names(fates)[k]
  {
    if rows != [] {
      NamesOfChosen(Init(rows), Init(fates));
    }
  }

  /** The inserted rows' names are pairwise distinct, new, and at most two hundred characters. */
  lemma InsertedNames(rows: seq<Row>, fates: seq<Fate>, existing: set<string>, names: set<string>)
    requires |rows| == |fates| && Datable(rows) && Decided(rows, fates, existing, names)
    ensures NamedApart(Chosen(rows, fates), names)
  {
    NamesOfChosen(rows, fates);
    NamesSound(rows, fates, existing, names);
    var inserted := Chosen(rows, fates);
    forall k | 0 <= k < |inserted| ensures inserted[k].name !in names && |inserted[k].name| <= 200 {
      assert Names(fates)[k] in Names(fates);
    }
  }

  ghost predicate NamedApart(inserted: seq<Row>, names: set<string>) {
    && (forall i, j :: 0 <= i < j < |inserted| ==> inserted[i].name != inserted[j].name)
    && forall k :: 0 <= k < |inserted| ==> inserted[k].name !in names && |inserted[k].name| <= 200
  }

  /** The inserted rows are the rows so decided, under their names. */
  lemma {:induction false} ChosenRows(rows: seq<Row>, fates: seq<Fate>)
    requires |rows| == |fates|
    ensures forall i :: 0 <= i < |rows| && fates[i].Inserted? ==> rows[i].(name := fates[i].name) in Chosen(rows, fates)
    ensures forall r :: r in Chosen(rows, fates) ==>
              exists i :: 0 <= i < |rows| && fates[i].Inserted? && r == rows[i].(name := fates[i].name)
    ensures forall n :: n in Names(fates) ==> exists r :: r in Chosen(rows, fates) && r.name == n
  {
    if rows != [] {
      var n, before := |rows| - 1, Chosen(Init(rows), Init(fates));
      ChosenRows(Init(rows), Init(fates));
      assert forall i :: 0 <= i < n ==> Init(rows)[i] == rows[i] && Init(fates)[i] == fates[i];
      assert forall r :: r in before ==> r in Chosen(rows, fates);
      if fates[n].Inserted? {
        assert Chosen(rows, fates) == before + [rows[n].(name := fates[n].name)];
        assert rows[n].(name := fates[n].name) in Chosen(rows, fates);
      }
    }
  }

  /** The reported rows are the rows so decided. */
  lemma {:induction false} ReportedRows(rows: seq<Row>, fates: seq<Fate>)
    requires |rows| == |fates|
    ensures forall i :: 0 <= i < |rows| && fates[i].Skipped? ==> rows[i] in Reported(rows, fates)
    ensures forall r :: r in Reported(rows, fates) ==> exists i :: 0 <= i < |rows| && fates[i].Skipped? && r == rows[i]
  {
    if rows != [] {
      var n := |rows| - 1;
      ReportedRows(Init(rows), Init(fates));
      assert forall i :: 0 <= i < n ==> Init(rows)[i] == rows[i] && Init(fates)[i] == fates[i];
    }
  }

  /** `r` is the row under its plain or its suffixed name. */
  predicate InsertedAs(row: Row, r: Row)
    requires row.start < 10000
  {
    r == row.(name := Plain(row)) || r == row.(name := Suffixed(row))
  }

  predicate IsInserted(row: Row, inserted: seq<Row>)
    requires row.start < 10000
  {
    exists r :: r in inserted && InsertedAs(row, r)
  }

  predicate NameTaken(name: string, inserted: seq<Row>, names: set<string>) {
    name in names || exists r :: r in inserted && r.name == name
  }

  /** Exactly one of: its item is already there, it is inserted, or it is reported with both its names
      taken. */
  predicate OneFate(row: Row, inserted: seq<Row>, skipped: seq<Row>, existing: set<string>, names: set<string>)
    requires row.start < 10000
  {
    var present, added, reported := row.qid in existing, IsInserted(row, inserted), row in skipped;
    && (present || added || reported)
    && !(present && added) && !(present && reported) && !(added && reported)
    && (reported ==> NameTaken(Plain(row), inserted, names) && NameTaken(Suffixed(row), inserted, names))
  }

  lemma NamesGrow(fates: seq<Fate>, i: nat)
    requires i <= |fates|
    ensures forall n :: n in Names(fates[..i]) ==> n in Names(fates)
    decreases |fates|
  {
    if i < |fates| {
      NamesGrow(Init(fates), i);
      assert Init(fates)[..i] == fates[..i];
    } else {
      assert fates[..i] == fates;
    }
  }

  /** Every fetched row is exactly one of already present, inserted or reported. */
  lemma EveryRowOnce(rows: seq<Row>, fates: seq<Fate>, existing: set<string>, names: set<string>, i: nat)
    requires |rows| == |fates| && Datable(rows) && Decided(rows, fates, existing, names)
    requires UniqueQids(rows) && i < |rows|
    ensures OneFate(rows[i], Chosen(rows, fates), Reported(rows, fates), existing, names)
  {
    ChosenRows(rows, fates);
    ReportedRows(rows, fates);
    NamesGrow(fates, i);
    assert fates[i] == Decide(rows[i], existing, names + Elements(Names(fates[..i])));
    forall j | 0 <= j < |rows| && rows[j].qid == rows[i].qid ensures j == i {
    }
  }

  lemma DecidedMore(rows: seq<Row>, fates: seq<Fate>, existing: set<string>, names: set<string>, i: nat, fate: Fate)
    requires Datable(rows) && i < |rows| && |fates| == i
    requires Decided(rows[..i], fates, existing, names)
    requires fate == Decide(rows[i], existing, names + Elements(Names(fates)))
    ensures Decided(rows[..i + 1], fates + [fate], existing, names)
  {
    var more := fates + [fate];
    assert more[..i] == fates;
    forall j | 0 <= j < i + 1
      ensures more[j] == Decide(rows[..i + 1][j], existing, names + Elements(Names(more[..j])))
    {
      if j < i {
        assert more[..j] == fates[..j] && rows[..i + 1][j] == rows[..i][j];
      }
    }
  }

  /** Name the rows to insert; `fates` is what became of each row. */
  method Allocate(rows: seq<Row>, existing: set<string>, names: set<string>)
    returns (inserted: seq<Row>, skipped: seq<Row>, fates: seq<Fate>)
    requires Datable(rows)
    ensures |fates| == |rows| && Decided(rows, fates, existing, names)
    ensures inserted == Chosen(rows, fates) && skipped == Reported(rows, fates)
    ensures Distinct(Names(fates)) && forall n :: n in Names(fates) ==> n !in names && |n| <= NAME_MAX_LENGTH
    ensures NamedApart(inserted, names)
    ensures UniqueQids(rows) ==> forall i :: 0 <= i < |rows| ==> OneFate(rows[i], inserted, skipped, existing, names)
  {
    var taken := names;
    inserted, skipped, fates := [], [], [];
    for i := 0 to |rows|
      invariant |fates| == i && Decided(rows[..i], fates, existing, names)
      invariant taken == names + Elements(Names(fates))
      invariant inserted == Chosen(rows[..i], fates) && skipped == Reported(rows[..i], fates)
    {
      var row, fate := rows[i], Decide(rows[i], existing, taken);
      DecidedMore(rows, fates, existing, names, i, fate);
      assert Init(rows[..i + 1]) == rows[..i] && Init(fates + [fate]) == fates;
      match fate {
        case Present =>
        case Inserted(name) =>
          inserted := inserted + [row.(name := name)];
          taken := taken + {name};
        case Skipped =>
          skipped := skipped + [row];
      }
      fates := fates + [fate];
    }
    assert rows[..|rows|] == rows;
    NamesSound(rows, fates, existing, names);
    InsertedNames(rows, fates, existing, names);
    if UniqueQids(rows) {
      forall i | 0 <= i < |rows| ensures OneFate(rows[i], inserted, skipped, existing, names) {
        EveryRowOnce(rows, fates, existing, names, i);
      }
    }
  }
}
