/**
 * The personal health log of `src/pages/HealthLog.jsx`: entries are added
 * through a form and kept newest first by a stable sort on their dates, the
 * log is exported as quoted comma-separated text, and mood and energy
 * ratings are shown as emoji.
 */
module HealthLog {
  import opened Text

  // ---------------------------------------------------------------------------
  // Dates
  // ---------------------------------------------------------------------------

  /**
   * Dates are the `YYYY-MM-DD` strings of the date input; for such strings
   * the order of the dates they denote is the character-by-character order.
   */
  predicate Older(a: string, b: string) {
    if a == [] then b != []
    else if b == [] then false
    else if a[0] != b[0] then a[0] < b[0]
    else Older(a[1..], b[1..])
  }

  lemma {:induction false} OlderIrreflexive(a: string)
    ensures !Older(a, a)
  {
    if a != [] { OlderIrreflexive(a[1..]); }
  }

  lemma {:induction false} OlderTransitive(a: string, b: string, c: string)
    requires Older(a, b) && Older(b, c)
    ensures Older(a, c)
  {
    if a != [] && b != [] && c != [] && a[0] == b[0] == c[0] {
      OlderTransitive(a[1..], b[1..], c[1..]);
    }
  }

  /** Two different dates are ordered one way or the other, never both. */
  lemma {:induction false} OlderTotal(a: string, b: string)
    ensures a != b <==> Older(a, b) || Older(b, a)
    ensures !(Older(a, b) && Older(b, a))
  {
    if a != [] && b != [] && a[0] == b[0] {
      OlderTotal(a[1..], b[1..]);
      assert a == [a[0]] + a[1..] && b == [b[0]] + b[1..];
    } else if a == b {
      OlderIrreflexive(a);
    }
  }

  /** A common beginning does not change the order. */
  lemma {:induction false} OlderCommonPrefix(p: string, x: string, y: string)
    ensures Older(p + x, p + y) == Older(x, y)
  {
    if p != [] {
      assert (p + x)[0] == p[0] == (p + y)[0];
      assert (p + x)[1..] == p[1..] + x && (p + y)[1..] == p[1..] + y;
      OlderCommonPrefix(p[1..], x, y);
    } else {
      assert p + x == x && p + y == y;
    }
  }

  /** Two strings that begin with pieces of one length are ordered by those pieces unless the pieces agree. */
  lemma {:induction false} OlderSplit(x: string, y: string, s: string, t: string)
    requires |x| == |y|
    ensures Older(x + s, y + t) == if x == y then Older(s, t) else Older(x, y)
  {
    if x == y {
      OlderCommonPrefix(x, s, t);
    } else {
      assert x != [];
      assert (x + s)[0] == x[0] && (y + t)[0] == y[0];
      assert (x + s)[1..] == x[1..] + s && (y + t)[1..] == y[1..] + t;
      if x[0] == y[0] {
        OlderSplit(x[1..], y[1..], s, t);
        assert x[1..] != y[1..] by {
          assert x == [x[0]] + x[1..] && y == [y[0]] + y[1..];
        }
      }
    }
  }

  /** A smaller leading digit wins whatever follows it. */
  lemma LeadingDigitDecides(d: nat, d': nat, r: nat, r': nat, p: nat)
    requires d < d' && r < p
    ensures d * p + r < d' * p + r'
  {
    assert (d + 1) * p <= d' * p;
  }

  /** For two digit runs of the same width, the earlier in character order is the smaller number. */
  lemma {:induction false} DigitsOrder(a: string, b: string)
    requires |a| == |b|
    requires forall k | 0 <= k < |a| :: IsDigit(a[k])
    requires forall k | 0 <= k < |b| :: IsDigit(b[k])
    ensures Older(a, b) <==> DigitsValue(a) < DigitsValue(b)
    ensures a == b <==> DigitsValue(a) == DigitsValue(b)
  {
    if a != [] {
      DigitsOrder(a[1..], b[1..]);
      DigitsValueCons(a);
      DigitsValueCons(b);
      DigitsValueBound(a[1..]);
      DigitsValueBound(b[1..]);
      var p := Pow10(|a| - 1);
      var da, db := DigitValue(a[0]), DigitValue(b[0]);
      var ra, rb := DigitsValue(a[1..]), DigitsValue(b[1..]);
      if da < db {
        LeadingDigitDecides(da, db, ra, rb, p);
      } else if db < da {
        LeadingDigitDecides(db, da, rb, ra, p);
      } else {
        assert a[0] == b[0];
        assert a == b <==> a[1..] == b[1..] by {
          assert a == [a[0]] + a[1..] && b == [b[0]] + b[1..];
        }
      }
    }
  }


  /** A value of the date input: four digits, '-', two digits, '-', two digits. */
  predicate IsDateKey(s: string) {
    |s| == 10 && s[4] == '-' && s[7] == '-' &&
    forall k | 0 <= k < 10 && k != 4 && k != 7 :: IsDigit(s[k])
  }

  /** The date as the number YYYYMMDD, which grows with the calendar day. */
  function DayNumber(s: string): nat
    requires IsDateKey(s)
  {
    DigitsValue(s[..4]) * 10000 + DigitsValue(s[5..7]) * 100 + DigitsValue(s[8..])
  }

  /** Year, then month, then day: the order of the numbers YYYYMMDD. */
  lemma DayNumberOrder(y: nat, m: nat, d: nat, y': nat, m': nat, d': nat)
    requires m < 100 && d < 100 && m' < 100 && d' < 100
    ensures y * 10000 + m * 100 + d < y' * 10000 + m' * 100 + d' <==>
            y < y' || (y == y' && (m < m' || (m == m' && d < d')))
  {
    var r, r' := m * 100 + d, m' * 100 + d';
    assert r < 10000 && r' < 10000;
    if y < y' {
      assert y * 10000 + r < (y + 1) * 10000 <= y' * 10000;
    } else if y' < y {
      assert y' * 10000 + r' < (y' + 1) * 10000 <= y * 10000;
    } else if m < m' {
      assert m * 100 + d < (m + 1) * 100 <= m' * 100;
    } else if m' < m {
      assert m' * 100 + d' < (m' + 1) * 100 <= m * 100;
    }
  }

  /**
   * On values of the date input, `Older` is the order of the calendar days:
   * the comparator's subtraction of the two parsed dates is positive exactly
   * when the second entry's day comes after the first's.
   */
  lemma OlderIsDayOrder(a: string, b: string)
    requires IsDateKey(a) && IsDateKey(b)
    ensures Older(a, b) <==> DayNumber(a) < DayNumber(b)
  {
    var ya, ma, da := a[..4], a[5..7], a[8..];
    var yb, mb, db := b[..4], b[5..7], b[8..];
    assert a == ya + ("-" + (ma + ("-" + da)));
    assert b == yb + ("-" + (mb + ("-" + db)));
    DigitsOrder(ya, yb);
    DigitsOrder(ma, mb);
    DigitsOrder(da, db);
    DigitsValueBound(ma);
    DigitsValueBound(mb);
    DigitsValueBound(da);
    DigitsValueBound(db);
    assert Pow10(2) == 100;
    DayNumberOrder(DigitsValue(ya), DigitsValue(ma), DigitsValue(da),
                   DigitsValue(yb), DigitsValue(mb), DigitsValue(db));
    OlderSplit(ya, yb, "-" + (ma + ("-" + da)), "-" + (mb + ("-" + db)));
    OlderCommonPrefix("-", ma + ("-" + da), mb + ("-" + db));
    OlderSplit(ma, mb, "-" + da, "-" + db);
    OlderCommonPrefix("-", da, db);
  }

  /** On dates of one length, such as `YYYY-MM-DD`, the order is the order of the first differing digit. */
  lemma OlderExample()
    ensures Older("2025-09-10", "2025-09-11") && Older("2025-08-31", "2025-09-01")
    ensures !Older("2025-09-11", "2025-09-10")
  {
    OlderCommonPrefix("2025-09-1", "0", "1");
    OlderCommonPrefix("2025-09-1", "1", "0");
    OlderCommonPrefix("2025-0", "8-31", "9-01");
    assert "2025-09-1" + "0" == "2025-09-10" && "2025-09-1" + "1" == "2025-09-11";
    assert "2025-0" + "8-31" == "2025-08-31" && "2025-0" + "9-01" == "2025-09-01";
  }

  // ---------------------------------------------------------------------------
  // Entries and the sort
  // ---------------------------------------------------------------------------

  /** One logged day; `id` and `createdAt` come from the clock. */
  datatype LogEntry = LogEntry(
    id: int,
    date: string,
    mood: int,
    energy: int,
    sleepQuality: string,
    notes: string,
    createdAt: string)

  /** Newest first: no entry is older than one after it. */
  predicate NewestFirst(s: seq<LogEntry>) {
    forall i, j | 0 <= i < j < |s| :: !Older(s[i].date, s[j].date)
  }

  /**
   * One step of the stable sort on dates, newest first: `e`,
   * coming last, goes in front of the first entry strictly older than it,
   * so after every entry of its own date.
   */
  function Insert(s: seq<LogEntry>, e: LogEntry): (r: seq<LogEntry>)
    ensures |r| == |s| + 1
  {
    if s == [] then [e]
    else if Older(s[0].date, e.date) then [e] + s
    else [s[0]] + Insert(s[1..], e)
  }

  /** The newest-first sort applied after a submit, as a stable insertion sort. */
  function SortNewestFirst(s: seq<LogEntry>): (r: seq<LogEntry>)
    ensures |r| == |s|
  {
    if s == [] then [] else Insert(SortNewestFirst(s[..|s| - 1]), s[|s| - 1])
  }

  /** Where `Insert` puts the new entry: in front of the first strictly older one. */
  function InsertPos(s: seq<LogEntry>, e: LogEntry): (k: nat)
    ensures k <= |s|
  {
    if s == [] || Older(s[0].date, e.date) then 0 else 1 + InsertPos(s[1..], e)
  }

  /** The entries of one date, in order. */
  function OnDate(s: seq<LogEntry>, d: string): seq<LogEntry> {
    if s == [] then [] else (if s[0].date == d then [s[0]] else []) + OnDate(s[1..], d)
  }

  lemma {:induction false} OnDateAppend(a: seq<LogEntry>, b: seq<LogEntry>, d: string)
    ensures OnDate(a + b, d) == OnDate(a, d) + OnDate(b, d)
  {
    if a == [] {
      assert a + b == b;
    } else {
      var head := if a[0].date == d then [a[0]] else [];
      calc {
        OnDate(a + b, d);
        { assert (a + b)[0] == a[0] && (a + b)[1..] == a[1..] + b; }
        head + OnDate(a[1..] + b, d);
        { OnDateAppend(a[1..], b, d); }
        head + (OnDate(a[1..], d) + OnDate(b, d));
        (head + OnDate(a[1..], d)) + OnDate(b, d);
      }
    }
  }

  /**
   * The new entry lands at `InsertPos`: every entry in front of it is at
   * least as new and the entry right behind it is strictly older; the
   * others keep their order.
   */
  lemma {:induction false} InsertPlacement(s: seq<LogEntry>, e: LogEntry)
    ensures var k := InsertPos(s, e);
      && Insert(s, e) == s[..k] + [e] + s[k..]
      && (forall i | 0 <= i < k :: !Older(s[i].date, e.date))
      && (k < |s| ==> Older(s[k].date, e.date))
  {
    if s != [] && !Older(s[0].date, e.date) {
      InsertPlacement(s[1..], e);
      var k := InsertPos(s, e);
      assert s[..k] == [s[0]] + s[1..][..k - 1];
      assert s[k..] == s[1..][k - 1..];
    }
  }

  /** In a newest-first log, every entry behind the insertion point is strictly older than the new one. */
  lemma InsertBehindOlder(s: seq<LogEntry>, e: LogEntry)
    requires NewestFirst(s)
    ensures forall i | InsertPos(s, e) <= i < |s| :: Older(s[i].date, e.date)
  {
    InsertPlacement(s, e);
    var k := InsertPos(s, e);
    forall i | k <= i < |s| ensures Older(s[i].date, e.date) {
      if i > k && s[i].date != s[k].date {
        OlderTotal(s[i].date, s[k].date);
        OlderTransitive(s[i].date, s[k].date, e.date);
      }
    }
  }

  /** Inserting into a newest-first log keeps it newest first. */
  lemma InsertKeepsOrder(s: seq<LogEntry>, e: LogEntry)
    requires NewestFirst(s)
    ensures NewestFirst(Insert(s, e))
  {
    InsertPlacement(s, e);
    InsertBehindOlder(s, e);
    var k := InsertPos(s, e);
    var r := Insert(s, e);
    forall i, j | 0 <= i < j < |r| ensures !Older(r[i].date, r[j].date) {
      if i < k && j == k {
      } else if i == k && j > k {
        assert r[j] == s[j - 1];
        OlderTotal(s[j - 1].date, e.date);
      } else if j < k {
        assert r[i] == s[i] && r[j] == s[j];
      } else if i < k {
        assert r[i] == s[i] && r[j] == s[j - 1];
      } else {
        assert r[i] == s[i - 1] && r[j] == s[j - 1];
      }
    }
  }

  /** The entries of a date around the insertion point, before and after inserting. */
  lemma OnDateAroundInsert(s: seq<LogEntry>, e: LogEntry, d: string)
    ensures var k := InsertPos(s, e);
      && OnDate(s, d) == OnDate(s[..k], d) + OnDate(s[k..], d)
      && OnDate(Insert(s, e), d) == OnDate(s[..k], d) + OnDate([e], d) + OnDate(s[k..], d)
  {
    InsertPlacement(s, e);
    var k := InsertPos(s, e);
    var front, back := s[..k], s[k..];
    assert s == front + back;
    OnDateAppend(front, back, d);
    OnDateAppend(front + [e], back, d);
    OnDateAppend(front, [e], d);
  }

  /** Inserting adds the entry to the entries of its own date, last, and to no other date. */
  lemma InsertOnDate(s: seq<LogEntry>, e: LogEntry, d: string)
    requires NewestFirst(s)
    ensures OnDate(Insert(s, e), d) == OnDate(s, d) + (if e.date == d then [e] else [])
  {
    OnDateAroundInsert(s, e, d);
    InsertBehindOlder(s, e);
    var k := InsertPos(s, e);
    if e.date == d {
      OlderAfterHasOtherDate(s[k..], e.date);
    } else {
      assert OnDate([e], d) == [];
    }
  }

  lemma {:induction false} OlderAfterHasOtherDate(t: seq<LogEntry>, d: string)
    requires forall i | 0 <= i < |t| :: Older(t[i].date, d)
    ensures OnDate(t, d) == []
  {
    if t != [] {
      OlderIrreflexive(d);
      assert t[0].date != d;
      OlderAfterHasOtherDate(t[1..], d);
    }
  }

  /** Inserting adds exactly the one entry. */
  lemma {:induction false} InsertMultiset(s: seq<LogEntry>, e: LogEntry)
    ensures multiset(Insert(s, e)) == multiset(s) + multiset{e}
  {
    if s != [] && !Older(s[0].date, e.date) {
      InsertMultiset(s[1..], e);
      assert s == [s[0]] + s[1..];
    }
  }

  /** The sort orders newest first and is a permutation of its input. */
  lemma {:induction false} SortNewestFirstSpec(s: seq<LogEntry>)
    ensures NewestFirst(SortNewestFirst(s))
    ensures multiset(SortNewestFirst(s)) == multiset(s)
  {
    if s != [] {
      var n := |s| - 1;
      var t := SortNewestFirst(s[..n]);
      SortNewestFirstSpec(s[..n]);
      InsertKeepsOrder(t, s[n]);
      InsertMultiset(t, s[n]);
      assert s == s[..n] + [s[n]];
    }
  }

  /** The sort is stable: the entries of any one date keep the order they had. */
  lemma {:induction false} SortStable(s: seq<LogEntry>, d: string)
    ensures OnDate(SortNewestFirst(s), d) == OnDate(s, d)
  {
    if s != [] {
      var n := |s| - 1;
      SortStable(s[..n], d);
      SortStableStep(s[..n], s[n], d);
      assert s[..n] + [s[n]] == s;
    }
  }

  /** The inductive step of `SortStable`: sorting one more entry keeps each date's entries in order. */
  lemma SortStableStep(p: seq<LogEntry>, e: LogEntry, d: string)
    requires OnDate(SortNewestFirst(p), d) == OnDate(p, d)
    ensures OnDate(SortNewestFirst(p + [e]), d) == OnDate(p + [e], d)
  {
    var s := p + [e];
    assert s[..|s| - 1] == p && s[|s| - 1] == e;
    assert SortNewestFirst(s) == Insert(SortNewestFirst(p), e);
    SortNewestFirstSpec(p);
    InsertOnDate(SortNewestFirst(p), e, d);
    OnDateAppend(p, [e], d);
    assert OnDate([e], d) == (if e.date == d then [e] else []) by {
      assert [e][1..] == [];
    }
  }

  /** A log that is already newest first is left as it is. */
  lemma {:induction false} SortKeepsSorted(s: seq<LogEntry>)
    requires NewestFirst(s)
    ensures SortNewestFirst(s) == s
  {
    if s != [] {
      var n := |s| - 1;
      assert NewestFirst(s[..n]);
      SortKeepsSorted(s[..n]);
      InsertPlacement(s[..n], s[n]);
      assert InsertPos(s[..n], s[n]) == n;
      assert s[..n] + [s[n]] == s;
    }
  }

  /**
   * Submitting to a newest-first log inserts the new entry behind every
   * entry at least as new and in front of every strictly older one.
   */
  lemma SubmitInserts(prev: seq<LogEntry>, e: LogEntry)
    requires NewestFirst(prev)
    ensures SortNewestFirst(prev + [e]) == Insert(prev, e)
  {
    assert (prev + [e])[..|prev|] == prev;
    SortKeepsSorted(prev);
  }

  // ---------------------------------------------------------------------------
  // CSV export
  // ---------------------------------------------------------------------------

  const Header: seq<string> := ["Date", "Mood (1-5)", "Energy (1-5)", "Sleep Quality", "Notes"]

  /** The notes cell: every comma becomes a semicolon. */
  function NotesCell(notes: string): string {
    ReplaceAll(notes, ',', ';')
  }

  /** The five cells of an entry's row. */
  function Cells(log: LogEntry): seq<string> {
    [log.date, IntToString(log.mood), IntToString(log.energy), log.sleepQuality, NotesCell(log.notes)]
  }

  /** A cell wrapped in double quotes. */
  function Quote(cell: string): string {
    ['"'] + cell + ['"']
  }

  /** A row of the export: each cell quoted, the cells joined by commas. */
  function Line(cells: seq<string>): string {
    Join(seq(|cells|, i requires 0 <= i < |cells| => Quote(cells[i])), ',')
  }

  /** The header line, then one line per entry in log order. */
  function Lines(logs: seq<LogEntry>): seq<string> {
    [Line(Header)] + seq(|logs|, i requires 0 <= i < |logs| => Line(Cells(logs[i])))
  }

  /**
   * `exportData`'s `csvContent`. Its shape is stated by `CsvLines` (the
   * header line, then one line per entry) and `RowFields` (the five quoted
   * cells of a row).
   */
  function Csv(logs: seq<LogEntry>): (csv: string)
    ensures Line(Header) <= csv
  {
    Join(Lines(logs), '\n')
  }

  /**
   * The notes cell keeps the length and every character but the comma,
   * which becomes ';'; so it holds no comma, and a '"' stays as it is.
   */
  lemma NotesCellSpec(notes: string)
    ensures |NotesCell(notes)| == |notes| && ',' !in NotesCell(notes)
    ensures forall k | 0 <= k < |notes| ::
      NotesCell(notes)[k] == (if notes[k] == ',' then ';' else notes[k])
  {
    ReplaceAllRemoves(notes, ',', ';');
    forall k | 0 <= k < |notes| ensures NotesCell(notes)[k] == (if notes[k] == ',' then ';' else notes[k]) {
      ReplaceAllAt(notes, ',', ';', k);
    }
  }

  lemma IntToStringLacks(n: int, c: char)
    requires !IsDigit(c) && c != '-'
    ensures c !in IntToString(n)
  {
  }

  /** A line holds a character only if some cell does (the quotes and separators aside). */
  lemma LineLacks(cells: seq<string>, c: char)
    requires c != '"' && c != ','
    requires forall k | 0 <= k < |cells| :: c !in cells[k]
    ensures c !in Line(cells)
  {
    var quoted := seq(|cells|, i requires 0 <= i < |cells| => Quote(cells[i]));
    JoinLacks(quoted, ',', c);
  }

  /** A cell's value may hold a line break only in the date, sleep quality or notes. */
  predicate SingleLine(log: LogEntry) {
    '\n' !in log.date && '\n' !in log.sleepQuality && '\n' !in log.notes
  }

  /**
   * While no entry holds a line break, the export has exactly one line more
   * than the log (no trailing line break), the first is the quoted header
   * and line i + 1 is entry i's row.
   */
  lemma CsvLines(logs: seq<LogEntry>)
    requires forall k | 0 <= k < |logs| :: SingleLine(logs[k])
    ensures Split(Csv(logs), '\n') == Lines(logs)
    ensures |Split(Csv(logs), '\n')| == |logs| + 1
    ensures Split(Csv(logs), '\n')[0] == Line(Header)
    ensures forall k | 0 <= k < |logs| :: Split(Csv(logs), '\n')[k + 1] == Line(Cells(logs[k]))
  {
    LinesSingle(logs);
    SplitJoin(Lines(logs), '\n');
  }

  /** While no entry holds a line break, no line of the export does. */
  lemma LinesSingle(logs: seq<LogEntry>)
    requires forall k | 0 <= k < |logs| :: SingleLine(logs[k])
    ensures forall k | 0 <= k < |Lines(logs)| :: '\n' !in Lines(logs)[k]
  {
    var lines := Lines(logs);
    forall k | 0 <= k < |lines| ensures '\n' !in lines[k] {
      if k == 0 {
        LineLacks(Header, '\n');
      } else {
        var log := logs[k - 1];
        var cells := Cells(log);
        NotesCellSpec(log.notes);
        assert '\n' !in NotesCell(log.notes) by {
          forall j | 0 <= j < |log.notes| ensures NotesCell(log.notes)[j] != '\n' {
            assert log.notes[j] in log.notes;
          }
        }
        IntToStringLacks(log.mood, '\n');
        IntToStringLacks(log.energy, '\n');
        LineLacks(cells, '\n');
      }
    }
  }

  /**
   * Each cell is written as '"' + cell + '"', and the cells are joined by
   * commas; while the date and sleep quality hold no comma, splitting a row
   * at its commas gives back its five quoted cells, the notes one included.
   */
  lemma RowFields(log: LogEntry)
    requires ',' !in log.date && ',' !in log.sleepQuality
    ensures var fields := Split(Line(Cells(log)), ',');
      && |fields| == 5
      && (forall k | 0 <= k < 5 :: fields[k] == ['"'] + Cells(log)[k] + ['"'])
  {
    var cells := Cells(log);
    var quoted := seq(|cells|, i requires 0 <= i < |cells| => Quote(cells[i]));
    NotesCellSpec(log.notes);
    IntToStringLacks(log.mood, ',');
    IntToStringLacks(log.energy, ',');
    forall k | 0 <= k < |quoted| ensures ',' !in quoted[k] {
      assert quoted[k] == ['"'] + cells[k] + ['"'];
    }
    SplitJoin(quoted, ',');
  }

  // ---------------------------------------------------------------------------
  // Mood and energy display
  // ---------------------------------------------------------------------------

  const MoodEmojis: seq<string> := ["\U{1F622}", "\U{1F614}", "\U{1F610}", "\U{1F60A}", "\U{1F604}"]
  const NeutralMood: string := "\U{1F610}"
  const EnergyIcons: seq<string> := ["\U{1F50B}", "\U{1F50B}", "\U{1F50B}", "\U{26A1}", "\U{26A1}\U{26A1}"]
  const Battery: string := "\U{1F50B}"

  /** The mood emoji: the table entry for ratings 1 to 5, the neutral face for any other rating (every entry is non-empty, so only a rating outside the table falls back). */
  function MoodEmoji(mood: int): (emoji: string)
    ensures emoji in MoodEmojis
  {
    if 1 <= mood <= 5 then MoodEmojis[mood - 1] else NeutralMood
  }

  /** The energy icon: the table entry for ratings 1 to 5, a battery for any other rating. */
  function EnergyIcon(energy: int): (icon: string)
    ensures icon in EnergyIcons
  {
    if 1 <= energy <= 5 then EnergyIcons[energy - 1] else Battery
  }

  /**
   * Each mood from 1 to 5 has an emoji of its own; the fallback for every
   * other value is the neutral face of mood 3.
   */
  lemma MoodEmojiSpec(mood: int, other: int)
    ensures 1 <= mood <= 5 && 1 <= other <= 5 && mood != other ==> MoodEmoji(mood) != MoodEmoji(other)
    ensures MoodEmoji(mood) == NeutralMood <==> mood != 1 && mood != 2 && mood != 4 && mood != 5
  {
  }

  /**
   * Energy 4 shows one lightning bolt and 5 shows two; 1 to 3 and every
   * value outside the scale show the battery.
   */
  lemma EnergyIconSpec(energy: int)
    ensures EnergyIcon(energy) == Battery <==> energy != 4 && energy != 5
    ensures energy == 4 ==> EnergyIcon(energy) == "\U{26A1}"
    ensures energy == 5 ==> EnergyIcon(energy) == "\U{26A1}\U{26A1}"
  {
  }

  // ---------------------------------------------------------------------------
  // The page state
  // ---------------------------------------------------------------------------

  /** The values of the add-entry form. */
  datatype Form = Form(date: string, mood: int, energy: int, sleepQuality: string, notes: string)

  /** The form as it is first shown and after every submit: today, 3, 3, "Good", no notes. */
  function DefaultForm(today: string): (f: Form)
    ensures f.date == today && f.mood == 3 && f.energy == 3
    ensures f.sleepQuality == "Good" && f.notes == ""
  {
    Form(today, 3, 3, "Good", "")
  }

  /** One edited input of the form, as `handleInputChange` receives it. */
  datatype Field =
    | DateInput(date: string)
    | MoodInput(mood: int)
    | EnergyInput(energy: int)
    | SleepQualityInput(sleepQuality: string)
    | NotesInput(notes: string)

  /** The named input takes the value, the others stay. */
  function Edit(f: Form, input: Field): Form {
    match input
    case DateInput(v) => f.(date := v)
    case MoodInput(v) => f.(mood := v)
    case EnergyInput(v) => f.(energy := v)
    case SleepQualityInput(v) => f.(sleepQuality := v)
    case NotesInput(v) => f.(notes := v)
  }

  /** The entry a submit adds: the form's values, with the id and time of the submit. */
  function NewEntry(f: Form, id: int, createdAt: string): LogEntry {
    LogEntry(id, f.date, f.mood, f.energy, f.sleepQuality, f.notes, createdAt)
  }

  /** The state of the health-log page. */
  class Log {
    var healthLogs: seq<LogEntry>
    var showAddForm: bool
    var formData: Form

    /** The log is kept newest first. */
    ghost predicate Valid()
      reads this
    {
      NewestFirst(healthLogs)
    }

    constructor (today: string)
      ensures Valid()
      ensures healthLogs == [] && !showAddForm && formData == DefaultForm(today)
    {
      healthLogs := [];
      showAddForm := false;
      formData := DefaultForm(today);
    }

    /** The "Add Entry" buttons. */
    method OpenForm()
      modifies this
      ensures showAddForm
      ensures healthLogs == old(healthLogs) && formData == old(formData)
    {
      showAddForm := true;
    }

    /** The "Cancel" button hides the form and keeps what was typed. */
    method Cancel()
      modifies this
      ensures !showAddForm
      ensures healthLogs == old(healthLogs) && formData == old(formData)
    {
      showAddForm := false;
    }

    /** `handleInputChange`. */
    method InputChange(input: Field)
      modifies this
      ensures formData == Edit(old(formData), input)
      ensures healthLogs == old(healthLogs) && showAddForm == old(showAddForm)
    {
      formData := Edit(formData, input);
    }

    /**
     * `handleSubmit`: the form becomes an entry, the log is re-sorted with
     * it newest first, the form is reset for `today` and hidden.
     */
    method Submit(id: int, createdAt: string, today: string)
      requires Valid()
      modifies this
      ensures Valid()
      ensures healthLogs == SortNewestFirst(old(healthLogs) + [NewEntry(old(formData), id, createdAt)])
      ensures healthLogs == Insert(old(healthLogs), NewEntry(old(formData), id, createdAt))
      ensures formData == DefaultForm(today) && !showAddForm
    {
      var newLog := NewEntry(formData, id, createdAt);
      SubmitInserts(healthLogs, newLog);
      InsertKeepsOrder(healthLogs, newLog);
      healthLogs := SortNewestFirst(healthLogs + [newLog]);
      formData := DefaultForm(today);
      showAddForm := false;
    }
  }
}
