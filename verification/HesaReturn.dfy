/** Composing a HESA return: the sorted record blocks and the validation pass
    (server/src/utils/hesa-return-composition.ts). */
module HesaReturn {
  import opened Prelude
  import opened Sorting
  import opened HesaCsv

  // ---------------------------------------------------------------- records

  datatype Entity = HESAStudent | HESAModule | Programme

  /** A source row, reduced to what composing needs: its own id, its preferred key if it has one, the
      key used otherwise, and the flattened fields. */
  datatype Record = Record(id: string, key: Option<string>, fallback: string, fields: map<string, Cell>)

  datatype ReturnLine = ReturnLine(
    recordKey: string,
    entityType: Entity,
    entityId: string,
    fields: map<string, Cell>,
    sortOrder: nat)

  datatype ReturnType = STUDENT | COURSE | MODULE | STAFF | DATA_FUTURES

  datatype Cohort = Cohort(students: seq<Record>, modules: seq<Record>, programmes: seq<Record>)

  function RecordKey(r: Record): string { if r.key.Some? then r.key.value else r.fallback }

  predicate KeyLeq(a: Record, b: Record) { TextLeq(RecordKey(a), RecordKey(b)) }

  function Number(rows: seq<Record>, entity: Entity): (lines: seq<ReturnLine>)
    ensures |lines| == |rows|
    ensures forall i :: 0 <= i < |rows| ==>
              lines[i] == ReturnLine(RecordKey(rows[i]), entity, rows[i].id, rows[i].fields, i)
  {
    seq(|rows|, i requires 0 <= i < |rows| => ReturnLine(RecordKey(rows[i]), entity, rows[i].id, rows[i].fields, i))
  }

  function Block(rows: seq<Record>, entity: Entity): seq<ReturnLine> { Number(Sort(KeyLeq, rows), entity) }

  function Renumber(lines: seq<ReturnLine>): (r: seq<ReturnLine>)
    ensures |r| == |lines|
    ensures forall i :: 0 <= i < |lines| ==> r[i] == lines[i].(sortOrder := i)
  {
    seq(|lines|, i requires 0 <= i < |lines| => lines[i].(sortOrder := i))
  }

  function Lines(returnType: ReturnType, c: Cohort): seq<ReturnLine> {
    match returnType
    case STUDENT => Block(c.students, HESAStudent)
    case MODULE => Block(c.modules, HESAModule)
    case COURSE => Block(c.programmes, Programme)
    case STAFF => []
    case DATA_FUTURES =>
      Renumber(Block(c.students, HESAStudent) + Block(c.modules, HESAModule) + Block(c.programmes, Programme))
  }

  // ---------------------------------------------------------------- determinism

  lemma {:induction false} KeyLeqIsTotalPreorder()
    ensures TotalPreorder(KeyLeq)
  {
    forall a, b ensures KeyLeq(a, b) || KeyLeq(b, a) { TextLeqTotal(RecordKey(a), RecordKey(b)); }
    forall a, b, c | KeyLeq(a, b) && KeyLeq(b, c) ensures KeyLeq(a, c) {
      TextLeqTransitive(RecordKey(a), RecordKey(b), RecordKey(c));
    }
  }

  /** The line shows the row: under its preferred key, or its other one if it has none. */
  ghost predicate ShowsRow(l: ReturnLine, r: Record, entity: Entity) {
    && l.recordKey == (match r.key case Some(k) => k case None => r.fallback)
    && l.entityType == entity && l.entityId == r.id && l.fields == r.fields
  }

  /** A block is its rows, each once, in ascending key order and numbered by position. */
  lemma {:induction false} BlockIsSorted(rows: seq<Record>, entity: Entity)
    ensures var block, sorted := Block(rows, entity), Sort(KeyLeq, rows);
      && multiset(sorted) == multiset(rows) && |block| == |rows|
      && (forall i :: 0 <= i < |block| ==> ShowsRow(block[i], sorted[i], entity) && block[i].sortOrder == i)
      && (forall i, j :: 0 <= i < j < |block| ==> TextLeq(block[i].recordKey, block[j].recordKey))
  {
    KeyLeqIsTotalPreorder();
    SortPermutes(KeyLeq, rows);
    SortSorts(KeyLeq, rows);
    var sorted := Sort(KeyLeq, rows);
    forall i, j | 0 <= i < j < |sorted| ensures KeyLeq(sorted[i], sorted[j]) {}
  }

  /** Rows of a block that share a key come out as the same line. */
  ghost predicate KeysTellLines(rows: seq<Record>) {
    forall a, b :: a in rows && b in rows && RecordKey(a) == RecordKey(b) ==> SameLine(a, b)
  }

  predicate SameLine(a: Record, b: Record) { RecordKey(a) == RecordKey(b) && a.id == b.id && a.fields == b.fields }

  /** A row with its key settled: all that a line shows of it. */
  function Keyed(r: Record): Record { Record(r.id, Some(RecordKey(r)), "", r.fields) }

  lemma {:induction false} BlockOfKeyed(rows: seq<Record>, entity: Entity)
    ensures Block(Map(Keyed, rows), entity) == Block(rows, entity)
  {
    SortCommutes(KeyLeq, Keyed, rows);
  }

  lemma {:induction false} BlockDeterministic(rows: seq<Record>, shuffled: seq<Record>, entity: Entity)
    requires KeysTellLines(rows) && multiset(rows) == multiset(shuffled)
    ensures Block(rows, entity) == Block(shuffled, entity)
  {
    hide SortedBy, NoTies, TotalPreorder, KeysTellLines;
    var xs, ys := Map(Keyed, rows), Map(Keyed, shuffled);
    BlockOfKeyed(rows, entity);
    BlockOfKeyed(shuffled, entity);
    MapPermutes(Keyed, rows, shuffled);
    KeyLeqIsTotalPreorder();
    SortPermutes(KeyLeq, xs);
    SortSorts(KeyLeq, xs);
    SortPermutes(KeyLeq, ys);
    SortSorts(KeyLeq, ys);
    KeyedRowsNeverTie(rows, Sort(KeyLeq, xs));
    SortedUnique(KeyLeq, Sort(KeyLeq, xs), Sort(KeyLeq, ys));
  }

  lemma {:induction false} KeyedRowsNeverTie(rows: seq<Record>, s: seq<Record>)
    requires KeysTellLines(rows) && multiset(s) == multiset(Map(Keyed, rows))
    ensures NoTies(KeyLeq, s)
  {
    var xs := Map(Keyed, rows);
    forall a, b | a in s && b in s && KeyLeq(a, b) && KeyLeq(b, a) ensures a == b {
      assert a in multiset(xs) && b in multiset(xs);
      TextLeqAntisymmetric(RecordKey(a), RecordKey(b));
      var i, j :| 0 <= i < |xs| && 0 <= j < |xs| && xs[i] == a && xs[j] == b;
      assert rows[i] in rows && rows[j] in rows && SameLine(rows[i], rows[j]);
    }
  }

  /** Otherwise two orders of reading the block can be told apart. */
  lemma {:induction false} BlockTellsOrder(rows: seq<Record>, entity: Entity) returns (shuffled: seq<Record>)
    requires !KeysTellLines(rows)
    ensures multiset(shuffled) == multiset(rows) && Block(shuffled, entity) != Block(rows, entity)
  {
    var a, b :| a in rows && b in rows && RecordKey(a) == RecordKey(b) && !SameLine(a, b);
    var rest := WithoutTwo(rows, a, b);
    SwappedTiesShow(a, b, rest, entity);
    var xs, ys := [a, b] + rest, [b, a] + rest;
    shuffled := if Block(xs, entity) == Block(rows, entity) then ys else xs;
  }

  /** Two rows that tie come out in the order in which they were read. */
  lemma {:induction false} SwappedTiesShow(a: Record, b: Record, rest: seq<Record>, entity: Entity)
    requires RecordKey(a) == RecordKey(b) && !SameLine(a, b)
    ensures Block([a, b] + rest, entity) != Block([b, a] + rest, entity)
  {
    hide SortedBy, TotalPreorder;
    TextLeqTotal(RecordKey(a), RecordKey(b));
    KeyLeqIsTotalPreorder();
    var s := Sort(KeyLeq, rest);
    var k := TiedKeepOrder(KeyLeq, a, b, s);
    SortTwoFirst(a, b, rest);
    SortTwoFirst(b, a, rest);
    var xs, ys := Sort(KeyLeq, [a, b] + rest), Sort(KeyLeq, [b, a] + rest);
    assert |s[..k]| == k && xs[k] == a && ys[k] == b;
    assert Number(xs, entity)[k] != Number(ys, entity)[k];
  }

  lemma {:induction false} SortTwoFirst(a: Record, b: Record, rest: seq<Record>)
    ensures Sort(KeyLeq, [a, b] + rest) == Insert(KeyLeq, a, Insert(KeyLeq, b, Sort(KeyLeq, rest)))
  {
    assert ([a, b] + rest)[1..] == [b] + rest && ([b] + rest)[1..] == rest;
  }

  lemma {:induction false} WithoutTwo(rows: seq<Record>, a: Record, b: Record) returns (rest: seq<Record>)
    requires a in rows && b in rows && a != b
    ensures multiset([a, b] + rest) == multiset(rows) && multiset([b, a] + rest) == multiset(rows)
  {
    var others := WithoutOne(rows, a);
    assert b in multiset(rows);
    assert b in multiset([a] + others);
    rest := WithoutOne(others, b);
    assert [a, b] + rest == [a] + ([b] + rest);
  }

  function RowsOf(c: Cohort, entity: Entity): seq<Record> {
    match entity
    case HESAStudent => c.students
    case HESAModule => c.modules
    case Programme => c.programmes
  }

  /** The blocks a return is made of. */
  predicate Lists(returnType: ReturnType, entity: Entity) {
    match returnType
    case STUDENT => entity == HESAStudent
    case MODULE => entity == HESAModule
    case COURSE => entity == Programme
    case STAFF => false
    case DATA_FUTURES => true
  }

  /** The same rows of every kind, read in another order. */
  ghost predicate Reordered(c: Cohort, d: Cohort) {
    forall entity :: multiset(RowsOf(c, entity)) == multiset(RowsOf(d, entity))
  }

  /** The order in which a cohort was read cannot be seen in its return if and only if, in every block of
      the return, rows that share a key come out as the same line. */
  lemma {:induction false} LinesDeterministicIff(returnType: ReturnType, c: Cohort)
    ensures (forall d :: Reordered(c, d) ==> Lines(returnType, d) == Lines(returnType, c))
       <==> forall entity :: Lists(returnType, entity) ==> KeysTellLines(RowsOf(c, entity))
  {
    if forall entity :: Lists(returnType, entity) ==> KeysTellLines(RowsOf(c, entity)) {
      forall d | Reordered(c, d) ensures Lines(returnType, d) == Lines(returnType, c) {
        SameBlocksSameLines(returnType, c, d);
      }
    } else {
      var entity :| Lists(returnType, entity) && !KeysTellLines(RowsOf(c, entity));
      var d := LinesTellOrder(returnType, c, entity);
    }
  }

  lemma {:induction false} SameBlocksSameLines(returnType: ReturnType, c: Cohort, d: Cohort)
    requires Reordered(c, d) && forall entity :: Lists(returnType, entity) ==> KeysTellLines(RowsOf(c, entity))
    ensures Lines(returnType, d) == Lines(returnType, c)
  {
    forall entity | Lists(returnType, entity)
      ensures Block(RowsOf(c, entity), entity) == Block(RowsOf(d, entity), entity)
    {
      BlockDeterministic(RowsOf(c, entity), RowsOf(d, entity), entity);
    }
    assert RowsOf(c, HESAStudent) == c.students && RowsOf(d, HESAStudent) == d.students;
    assert RowsOf(c, HESAModule) == c.modules && RowsOf(d, HESAModule) == d.modules;
    assert RowsOf(c, Programme) == c.programmes && RowsOf(d, Programme) == d.programmes;
  }

  lemma {:induction false} LinesTellOrder(returnType: ReturnType, c: Cohort, entity: Entity) returns (d: Cohort)
    requires Lists(returnType, entity) && !KeysTellLines(RowsOf(c, entity))
    ensures Reordered(c, d) && Lines(returnType, d) != Lines(returnType, c)
  {
    var shuffled := BlockTellsOrder(RowsOf(c, entity), entity);
    d := match entity
      case HESAStudent => c.(students := shuffled)
      case HESAModule => c.(modules := shuffled)
      case Programme => c.(programmes := shuffled);
    BlockFromLines(returnType, c, d, entity);
  }

  /** A block of known size can be read off the return. */
  lemma {:induction false} BlockFromLines(returnType: ReturnType, c: Cohort, d: Cohort, entity: Entity)
    requires Reordered(c, d) && Lists(returnType, entity)
    requires Block(RowsOf(c, entity), entity) != Block(RowsOf(d, entity), entity)
    ensures Lines(returnType, d) != Lines(returnType, c)
  {
    hide Block, Renumber;
    SameSizes(c, d, HESAStudent);
    SameSizes(c, d, HESAModule);
    SameSizes(c, d, Programme);
    if returnType == DATA_FUTURES {
      var a, b := Block(c.students, HESAStudent), Block(d.students, HESAStudent);
      var a', b' := Block(c.modules, HESAModule), Block(d.modules, HESAModule);
      var a'', b'' := Block(c.programmes, Programme), Block(d.programmes, Programme);
      match entity
      case HESAStudent =>
        assert [] + a + (a' + a'') == a + a' + a'' && [] + b + (b' + b'') == b + b' + b'';
        PartFromRenumbered([], a, a' + a'', [], b, b' + b'');
      case HESAModule => PartFromRenumbered(a, a', a'', b, b', b'');
      case Programme =>
        assert (a + a') + a'' + [] == a + a' + a'' && (b + b') + b'' + [] == b + b' + b'';
        PartFromRenumbered(a + a', a'', [], b + b', b'', []);
    }
  }

  predicate Numbered(lines: seq<ReturnLine>) { forall i :: 0 <= i < |lines| ==> lines[i].sortOrder == i }

  lemma {:induction false} SameSizes(c: Cohort, d: Cohort, entity: Entity)
    requires Reordered(c, d)
    ensures var xs, ys := Block(RowsOf(c, entity), entity), Block(RowsOf(d, entity), entity);
      |xs| == |ys| && Numbered(xs) && Numbered(ys)
  {
    BlockIsSorted(RowsOf(c, entity), entity);
    BlockIsSorted(RowsOf(d, entity), entity);
    assert |RowsOf(c, entity)| == |multiset(RowsOf(c, entity))| == |multiset(RowsOf(d, entity))|;
  }

  lemma {:induction false} PartFromRenumbered(before: seq<ReturnLine>, xs: seq<ReturnLine>, after: seq<ReturnLine>,
                                             before': seq<ReturnLine>, ys: seq<ReturnLine>, after': seq<ReturnLine>)
    requires |before| == |before'| && |xs| == |ys| && Numbered(xs) && Numbered(ys) && xs != ys
    ensures Renumber(before + xs + after) != Renumber(before' + ys + after')
  {
    var i :| 0 <= i < |xs| && xs[i] != ys[i];
    var lines, lines', k := before + xs + after, before' + ys + after', |before| + i;
    assert lines[k] == xs[i] && lines'[k] == ys[i];
    assert Renumber(lines)[k] == xs[i].(sortOrder := k) && Renumber(lines')[k] == ys[i].(sortOrder := k);
    assert xs[i] == xs[i].(sortOrder := k).(sortOrder := i) && ys[i] == ys[i].(sortOrder := k).(sortOrder := i);
  }

  /** A return lists every row of each of its blocks, and as many lines as those blocks have rows. */
  lemma {:induction false} EveryRowIsListed(returnType: ReturnType, c: Cohort, entity: Entity, r: Record)
    requires Lists(returnType, entity) && r in RowsOf(c, entity)
    ensures exists l :: l in Lines(returnType, c) && ShowsRow(l, r, entity)
  {
    hide Block;
    var block, sorted := Block(RowsOf(c, entity), entity), Sort(KeyLeq, RowsOf(c, entity));
    BlockIsSorted(RowsOf(c, entity), entity);
    assert r in multiset(sorted);
    var i :| 0 <= i < |sorted| && sorted[i] == r;
    if returnType == DATA_FUTURES {
      var parts := Block(c.students, HESAStudent) + Block(c.modules, HESAModule) + Block(c.programmes, Programme);
      assert block[i] in parts;
      var k :| 0 <= k < |parts| && parts[k] == block[i];
      assert ShowsRow(Renumber(parts)[k], r, entity) && Renumber(parts)[k] in Renumber(parts);
    } else {
      assert block[i] in block;
    }
  }

  lemma {:induction false} LinesCountTheRows(returnType: ReturnType, c: Cohort)
    ensures |Lines(returnType, c)| == match returnType
      case STUDENT => |c.students|
      case MODULE => |c.modules|
      case COURSE => |c.programmes|
      case STAFF => 0
      case DATA_FUTURES => |c.students| + |c.modules| + |c.programmes|
  {
    hide Block;
    BlockIsSorted(c.students, HESAStudent);
    BlockIsSorted(c.modules, HESAModule);
    BlockIsSorted(c.programmes, Programme);
  }

  lemma SortOrderIsPosition(returnType: ReturnType, c: Cohort)
    ensures forall i :: 0 <= i < |Lines(returnType, c)| ==> Lines(returnType, c)[i].sortOrder == i
  {
  }

  // ---------------------------------------------------------------- validation rules

  datatype Severity = ERROR | WARNING | INFO

  /** The JSON column `expectedValues`, as far as the evaluator looks into it. */
  datatype Expected =
    | Items(codes: seq<string>)
    | Object(pattern: Option<string>, min: Option<real>, max: Option<real>, eq: Option<real>)
    | Other

  /** The validation types the evaluator knows; any other text is unknown to it. */
  datatype ValidationType = REQUIRED | CODE_LIST | REGEX | LENGTH | Unknown(name: string)

  /** `entityType` is None when the rule names none of the three entities. */
  datatype Rule = Rule(
    ruleCode: string,
    entityType: Option<Entity>,
    fieldName: string,
    validationType: ValidationType,
    expectedValues: Expected,
    severity: Severity,
    isActive: bool)

  predicate Applies(rule: Rule, line: ReturnLine) { rule.entityType == Some(line.entityType) }

  function ValueOf(rule: Rule, line: ReturnLine): Cell {
    if rule.fieldName in line.fields then line.fields[rule.fieldName] else Null
  }

  /** White space and line terminators as `String.prototype.trim` removes them. */
  predicate IsBlankChar(ch: char) {
    || '\t' <= ch <= '\r' || ch == ' ' || ch == '\U{A0}' || ch == '\U{1680}' || '\U{2000}' <= ch <= '\U{200A}'
    || ch == '\U{2028}' || ch == '\U{2029}' || ch == '\U{202F}' || ch == '\U{205F}' || ch == '\U{3000}'
    || ch == '\U{FEFF}'
  }

  predicate IsEmpty(v: Cell) {
    v.Null? || (v.Text? && forall i :: 0 <= i < |v.s| ==> IsBlankChar(v.s[i]))
  }

  predicate SpellsOut(s: string, start: string) { start <= s }

  /** The bracketed digits of `^\d{N}$` or `^[0-9]{N}$`, the only patterns accepted. */
  function CountDigits(pattern: string): Option<string> {
    var start := if SpellsOut(pattern, ['^', '\\', 'd', '{']) then 4
                 else if SpellsOut(pattern, ['^', '[', '0', '-', '9', ']', '{']) then 7 else 0;
    if start == 0 || |pattern| < start + 3 || pattern[|pattern| - 2] != '}' || pattern[|pattern| - 1] != '$' then None
    else
      var digits := pattern[start..|pattern| - 2];
      if AllDigits(digits) then Some(digits) else None
  }

  function PatternStart(short: bool): string {
    if short then ['^', '\\', 'd', '{'] else ['^', '[', '0', '-', '9', ']', '{']
  }

  /** An accepted pattern is its start, its digits and its end. */
  lemma {:induction false} PatternParts(pattern: string, digits: string)
    requires CountDigits(pattern) == Some(digits)
    ensures digits != [] && AllDigits(digits)
    ensures exists short :: pattern == PatternStart(short) + digits + ['}', '$']
  {
    var short := SpellsOut(pattern, PatternStart(true));
    var start, n := PatternStart(short), |pattern| - 2;
    assert pattern[..|start|] == start && pattern[|start|..n] == digits && pattern[n..] == ['}', '$'];
    assert pattern == pattern[..|start|] + pattern[|start|..n] + pattern[n..];
  }

  lemma {:induction false} PatternAccepted(pattern: string, short: bool, digits: string)
    requires pattern == PatternStart(short) + digits + ['}', '$'] && digits != [] && AllDigits(digits)
    ensures CountDigits(pattern) == Some(digits)
  {
    var start := PatternStart(short);
    assert pattern[..|start|] == start && pattern[1] == start[1];
    assert pattern[|start|..|pattern| - 2] == digits;
  }

  /** Exactly the two anchored shapes are accepted, with at least one digit between the braces. */
  lemma {:induction false} AcceptedPatterns(pattern: string)
    ensures CountDigits(pattern).Some? <==>
      exists digits :: digits != [] && AllDigits(digits)
        && (pattern == ['^', '\\', 'd', '{'] + digits + ['}', '$']
            || pattern == ['^', '[', '0', '-', '9', ']', '{'] + digits + ['}', '$'])
    ensures CountDigits(pattern).Some? ==> CountDigits(pattern).value != [] && AllDigits(CountDigits(pattern).value)
  {
    var short, long := ['^', '\\', 'd', '{'], ['^', '[', '0', '-', '9', ']', '{'];
    if CountDigits(pattern).Some? {
      PatternParts(pattern, CountDigits(pattern).value);
    }
    if digits :| digits != [] && AllDigits(digits)
                 && (pattern == short + digits + ['}', '$'] || pattern == long + digits + ['}', '$']) {
      PatternAccepted(pattern, pattern == short + digits + ['}', '$'], digits);
    }
  }

  const MAX_REGEX_INPUT_LENGTH := 4096

  /** How one rule fares against one line; the messages belong to these outcomes. */
  datatype Verdict = NotApplicable | Skipped | Judged(passed: bool)

  /** Code units that count as blank: white space and line terminators of ECMA-262, sections 12.2 and 12.3. */
  const BLANKS: set<int> := {
    0x9, 0xA, 0xB, 0xC, 0xD, 0x20, 0xA0, 0x1680, 0x2000, 0x2001, 0x2002, 0x2003, 0x2004, 0x2005, 0x2006, 0x2007, 0x2008,
    0x2009, 0x200A, 0x2028, 0x2029, 0x202F, 0x205F, 0x3000, 0xFEFF}

  /** What a line holds in a field: nothing when the field is absent, null or blank text. */
  function ContentOf(line: ReturnLine, field: string): Option<string> {
    if field !in line.fields then None
    else
      match line.fields[field]
      case Null => None
      case Shown(t) => Some(t)
      case Text(s) => if exists i :: 0 <= i < |s| && s[i] as int !in BLANKS then Some(s) else None
  }

  /** The rule's meaning, stated on what the line holds: content is required, must be listed, must be so many
      digits, or must be of a fitting length. */
  function Judge(rule: Rule, line: ReturnLine): Verdict {
    var content := ContentOf(line, rule.fieldName);
    if rule.entityType != Some(line.entityType) then NotApplicable
    else
      match rule.validationType
      case REQUIRED => Judged(content.Some?)
      case CODE_LIST =>
        Judged(content.Some? && rule.expectedValues.Items? && content.value in rule.expectedValues.codes)
      case REGEX => JudgePattern(rule.expectedValues, content)
      case LENGTH => Judged(content.Some? && LengthFits(rule.expectedValues, |content.value|))
      case Unknown(_) => Skipped
  }

  function JudgePattern(expected: Expected, content: Option<string>): Verdict {
    if !expected.Object? || expected.pattern.None? || CountDigits(expected.pattern.value).None? then Skipped
    else if content.None? then Judged(false)
    else
      var count := DigitValue(CountDigits(expected.pattern.value).value);
      if |content.value| > 4096 || count < 1 || count > 64 then Skipped
      else Judged(|content.value| == count && AllDigits(content.value))
  }

  lemma {:induction false} ContentIsRendered(rule: Rule, line: ReturnLine)
    ensures var v, content := ValueOf(rule, line), ContentOf(line, rule.fieldName);
      (IsEmpty(v) <==> content.None?) && (content.Some? ==> content.value == Render(v))
  {
    forall ch: char ensures IsBlankChar(ch) <==> ch as int in BLANKS { BlankChars(ch); }
  }

  lemma BlankChars(ch: char)
    ensures IsBlankChar(ch) <==> ch as int in BLANKS
  {
  }

  predicate LengthFits(expected: Expected, length: nat) {
    expected.Object? ==>
      && (expected.eq.Some? ==> length as real == expected.eq.value)
      && (expected.min.Some? ==> length as real >= expected.min.value)
      && (expected.max.Some? ==> length as real <= expected.max.value)
  }

  // ---------------------------------------------------------------- results and their messages

  /** The messages of the evaluator, one constructor for each place that writes one. Only what a
      message starts with matters to the accounting, so bounds taken from the rule are cut off. */
  datatype Message =
    | EntityMismatch
    | RequiredPresent
    | RequiredMissing(field: string)
    | CodeListEmpty(field: string)
    | CodePresent
    | CodeAbsent(value: string)
    | NoPattern
    | UnsupportedPattern
    | PatternEmpty(field: string)
    | TooLong(length: nat)
    | CountOutOfRange(count: nat)
    | PatternMatches
    | PatternFails(value: string)
    | LengthEmpty(field: string)
    | LengthFitting
    | LengthNotEqual(length: nat)
    | LengthOutside(length: nat)
    | UnknownType(name: string)

  const SKIPPED := "Skipped"

  function Wording(m: Message): string {
    match m
    case EntityMismatch => "Rule" + " entity type does not apply to this line."
    case RequiredPresent => "Required field present."
    case RequiredMissing(f) => "Field " + f + " is required but is missing or empty."
    case CodeListEmpty(f) => "Field " + f + " is empty so code-list cannot apply."
    case CodePresent => "Value present in code list."
    case CodeAbsent(v) => "Value \"" + v + "\" not in allowed code list."
    case NoPattern => SKIPPED + " \U{2014} no pattern."
    case UnsupportedPattern => SKIPPED + " \U{2014} not a supported anchored digit pattern."
    case PatternEmpty(f) => "Field " + f + " empty so regex cannot apply."
    case TooLong(n) => SKIPPED + " \U{2014} value length " + Decimal(n)
    case CountOutOfRange(n) => SKIPPED + " \U{2014} digit count " + Decimal(n)
    case PatternMatches => "Regex match."
    case PatternFails(v) => "Value \"" + v + "\" does not match."
    case LengthEmpty(f) => "Field " + f + " empty so length cannot apply."
    case LengthFitting => "Length within range."
    case LengthNotEqual(n) => "Expected another length, got " + Decimal(n)
    case LengthOutside(n) => "Length " + Decimal(n)
    case UnknownType(t) => SKIPPED + " \U{2014} unknown validationType " + t
  }

  predicate IsSkip(m: Message) {
    m.NoPattern? || m.UnsupportedPattern? || m.TooLong? || m.CountOutOfRange? || m.UnknownType?
  }

  /** Where the test for skipped rules looks. */
  lemma {:induction false} SkippedWording(m: Message)
    ensures SKIPPED <= Wording(m) <==> IsSkip(m)
  {
    assert SKIPPED[0] == 'S';
    match m
    case NoPattern => assert Wording(m)[..|SKIPPED|] == SKIPPED;
    case UnsupportedPattern => assert Wording(m)[..|SKIPPED|] == SKIPPED;
    case TooLong(_) => assert Wording(m)[..|SKIPPED|] == SKIPPED;
    case CountOutOfRange(_) => assert Wording(m)[..|SKIPPED|] == SKIPPED;
    case UnknownType(_) => assert Wording(m)[..|SKIPPED|] == SKIPPED;
    case EntityMismatch => assert Wording(m)[0] == 'R';
    case RequiredPresent => assert Wording(m)[0] == 'R';
    case RequiredMissing(_) => assert Wording(m)[0] == 'F';
    case CodeListEmpty(_) => assert Wording(m)[0] == 'F';
    case CodePresent => assert Wording(m)[0] == 'V';
    case CodeAbsent(_) => assert Wording(m)[0] == 'V';
    case PatternEmpty(_) => assert Wording(m)[0] == 'F';
    case PatternMatches => assert Wording(m)[0] == 'R';
    case PatternFails(_) => assert Wording(m)[0] == 'V';
    case LengthEmpty(_) => assert Wording(m)[0] == 'F';
    case LengthFitting => assert Wording(m)[0] == 'L';
    case LengthNotEqual(_) => assert Wording(m)[0] == 'E';
    case LengthOutside(_) => assert Wording(m)[0] == 'L';
  }

  /** Where the test for rules of another entity type looks. */
  lemma {:induction false} MismatchWording(m: Message)
    ensures Wording(m) == Wording(EntityMismatch) <==> m == EntityMismatch
  {
    assert Wording(EntityMismatch)[0] == 'R' && Wording(EntityMismatch)[1] == 'u';
    SkippedWording(m);
    assert SKIPPED[0] == 'S';
    match m
    case EntityMismatch =>
    case RequiredPresent => assert Wording(m)[1] == 'e';
    case PatternMatches => assert Wording(m)[1] == 'e';
    case RequiredMissing(_) => assert Wording(m)[0] == 'F';
    case CodeListEmpty(_) => assert Wording(m)[0] == 'F';
    case CodePresent => assert Wording(m)[0] == 'V';
    case CodeAbsent(_) => assert Wording(m)[0] == 'V';
    case PatternEmpty(_) => assert Wording(m)[0] == 'F';
    case PatternFails(_) => assert Wording(m)[0] == 'V';
    case LengthEmpty(_) => assert Wording(m)[0] == 'F';
    case LengthFitting => assert Wording(m)[0] == 'L';
    case LengthNotEqual(_) => assert Wording(m)[0] == 'E';
    case LengthOutside(_) => assert Wording(m)[0] == 'L';
    case _ => assert Wording(m)[0] == 'S';
  }

  /** The two tests the composer makes on message texts see exactly the messages they mean. */
  method SaysNotApplicable(m: Message) returns (b: bool)
    ensures b <==> m == EntityMismatch
  {
    MismatchWording(m);
    b := Wording(m) == Wording(EntityMismatch);
  }

  method SaysSkipped(m: Message) returns (b: bool)
    ensures b <==> IsSkip(m)
  {
    SkippedWording(m);
    b := SKIPPED <= Wording(m);
  }

  datatype Finding = Finding(severity: Severity, passed: bool, message: Message)

  /** One case of the evaluator after another, in the order of the source. */
  function Evaluate(rule: Rule, line: ReturnLine): Finding {
    var v := ValueOf(rule, line);
    if !Applies(rule, line) then Finding(rule.severity, true, EntityMismatch)
    else if rule.validationType == REQUIRED then
      if !IsEmpty(v) then Finding(rule.severity, true, RequiredPresent)
      else Finding(rule.severity, false, RequiredMissing(rule.fieldName))
    else if rule.validationType == CODE_LIST then
      if IsEmpty(v) then Finding(rule.severity, false, CodeListEmpty(rule.fieldName))
      else if rule.expectedValues.Items? && Render(v) in rule.expectedValues.codes then
        Finding(rule.severity, true, CodePresent)
      else Finding(rule.severity, false, CodeAbsent(Render(v)))
    else if rule.validationType == REGEX then EvaluatePattern(rule, v)
    else if rule.validationType == LENGTH then EvaluateLength(rule, v)
    else Finding(INFO, true, UnknownType(rule.validationType.name))
  }

  function EvaluatePattern(rule: Rule, v: Cell): Finding {
    var expected := rule.expectedValues;
    if !expected.Object? || expected.pattern.None? then Finding(INFO, true, NoPattern)
    else
      var digits := CountDigits(expected.pattern.value);
      if digits.None? then Finding(INFO, true, UnsupportedPattern)
      else if IsEmpty(v) then Finding(rule.severity, false, PatternEmpty(rule.fieldName))
      else
        var candidate, count := Render(v), DigitValue(digits.value);
        if |candidate| > MAX_REGEX_INPUT_LENGTH then Finding(INFO, true, TooLong(|candidate|))
        else if count <= 0 || count > 64 then Finding(INFO, true, CountOutOfRange(count))
        else if |candidate| == count && AllDigits(candidate) then Finding(rule.severity, true, PatternMatches)
        else Finding(rule.severity, false, PatternFails(candidate))
  }

  function EvaluateLength(rule: Rule, v: Cell): Finding {
    var length, e := |Render(v)|, rule.expectedValues;
    if IsEmpty(v) then Finding(rule.severity, false, LengthEmpty(rule.fieldName))
    else if e.Object? && e.eq.Some? && length as real != e.eq.value then
      Finding(rule.severity, false, LengthNotEqual(length))
    else if e.Object? && e.min.Some? && (length as real) < e.min.value then
      Finding(rule.severity, false, LengthOutside(length))
    else if e.Object? && e.max.Some? && length as real > e.max.value then
      Finding(rule.severity, false, LengthOutside(length))
    else Finding(rule.severity, true, LengthFitting)
  }

  datatype Result = Result(rule: Rule, entityType: Entity, entityId: string, finding: Finding)

  predicate IsSkipped(f: Finding) { f.passed && IsSkip(f.message) }

  /** What the composer reads off a finding by its message is the verdict on the rule. */
  lemma {:induction false} MessagesTellTheVerdict(rule: Rule, line: ReturnLine)
    ensures var f, verdict := Evaluate(rule, line), Judge(rule, line);
      && (f.message == EntityMismatch <==> verdict == NotApplicable)
      && (IsSkipped(f) <==> verdict == Skipped)
      && (!f.passed <==> verdict == Judged(false))
      && f.severity == (if verdict == Skipped then INFO else rule.severity)
      && (verdict == NotApplicable <==> !Applies(rule, line))
  {
    hide IsEmpty, Render, CountDigits, DigitValue, AllDigits, ContentOf, ValueOf;
    var content := ContentOf(line, rule.fieldName);
    ContentIsRendered(rule, line);
    PatternVerdict(rule, ValueOf(rule, line), content);
    LengthVerdict(rule, ValueOf(rule, line), content);
    hide EvaluatePattern, JudgePattern, EvaluateLength, LengthFits;
  }

  lemma PatternVerdict(rule: Rule, v: Cell, content: Option<string>)
    requires (IsEmpty(v) <==> content.None?) && (content.Some? ==> content.value == Render(v))
    ensures var f, verdict := EvaluatePattern(rule, v), JudgePattern(rule.expectedValues, content);
      && f.message != EntityMismatch && verdict != NotApplicable
      && (IsSkipped(f) <==> verdict == Skipped) && (!f.passed <==> verdict == Judged(false))
      && f.severity == if verdict == Skipped then INFO else rule.severity
  {
  }

  lemma LengthVerdict(rule: Rule, v: Cell, content: Option<string>)
    requires (IsEmpty(v) <==> content.None?) && (content.Some? ==> content.value == Render(v))
    ensures var f := EvaluateLength(rule, v);
      && f.message != EntityMismatch && !IsSkipped(f) && f.severity == rule.severity
      && (f.passed <==> content.Some? && LengthFits(rule.expectedValues, |content.value|))
  {
  }

  /** An evaluator whose messages say which rules apply and whose failures carry the rule's severity. */
  ghost predicate Honest(evaluate: (Rule, ReturnLine) -> Finding) {
    forall rule, line :: var f := evaluate(rule, line);
      && (f.message == EntityMismatch <==> !Applies(rule, line))
      && (f.message == EntityMismatch ==> f.passed)
      && (!f.passed ==> f.severity == rule.severity)
  }

  lemma EvaluateIsHonest()
    ensures Honest(Evaluate)
  {
  }

  // ---------------------------------------------------------------- the validation pass

  type Evaluator = (Rule, ReturnLine) -> Finding

  datatype Totals = Totals(errors: nat, warnings: nat, infos: nat, skipped: nat)

  const ZERO := Totals(0, 0, 0, 0)

  function Plus(a: Totals, b: Totals): Totals {
    Totals(a.errors + b.errors, a.warnings + b.warnings, a.infos + b.infos, a.skipped + b.skipped)
  }

  /** What one finding contributes: a failure counts at the rule's severity, a skip as information. */
  function Contribution(rule: Rule, f: Finding): Totals {
    if IsSkipped(f) then Totals(0, 0, 1, 1)
    else if f.passed then ZERO
    else
      match rule.severity
      case ERROR => Totals(1, 0, 0, 0)
      case WARNING => Totals(0, 1, 0, 0)
      case INFO => Totals(0, 0, 1, 0)
  }

  function RuleTotals(ev: Evaluator, rule: Rule, lines: seq<ReturnLine>): Totals {
    if lines == [] then ZERO else Plus(Contribution(rule, ev(rule, lines[0])), RuleTotals(ev, rule, lines[1..]))
  }

  function AllTotals(ev: Evaluator, rules: seq<Rule>, lines: seq<ReturnLine>): Totals {
    if rules == [] then ZERO
    else if rules[0].isActive then Plus(RuleTotals(ev, rules[0], lines), AllTotals(ev, rules[1..], lines))
    else AllTotals(ev, rules[1..], lines)
  }

  function ResultOf(ev: Evaluator, rule: Rule, line: ReturnLine): Result {
    Result(rule, line.entityType, line.entityId, ev(rule, line))
  }

  function RuleResults(ev: Evaluator, rule: Rule, lines: seq<ReturnLine>): seq<Result> {
    if lines == [] then []
    else (if Applies(rule, lines[0]) then [ResultOf(ev, rule, lines[0])] else []) + RuleResults(ev, rule, lines[1..])
  }

  /** Active rules in order, each against the lines of its entity type in order. */
  function AllResults(ev: Evaluator, rules: seq<Rule>, lines: seq<ReturnLine>): seq<Result> {
    if rules == [] then []
    else (if rules[0].isActive then RuleResults(ev, rules[0], lines) else []) + AllResults(ev, rules[1..], lines)
  }

  function Active(rules: seq<Rule>): seq<Rule> {
    if rules == [] then [] else (if rules[0].isActive then [rules[0]] else []) + Active(rules[1..])
  }

  lemma {:induction false} ActiveSuffices(ev: Evaluator, rules: seq<Rule>, lines: seq<ReturnLine>)
    ensures AllResults(ev, Active(rules), lines) == AllResults(ev, rules, lines)
    ensures AllTotals(ev, Active(rules), lines) == AllTotals(ev, rules, lines)
    ensures forall i :: 0 <= i < |Active(rules)| ==> Active(rules)[i].isActive
  {
    if rules == [] {
    } else {
      ActiveSuffices(ev, rules[1..], lines);
      if rules[0].isActive {
        assert Active(rules)[0] == rules[0] && Active(rules)[1..] == Active(rules[1..]);
      } else {
        assert Active(rules) == Active(rules[1..]);
      }
    }
  }

  /** The counters, one finding at a time. */
  method Count(totals: Totals, rule: Rule, f: Finding) returns (next: Totals)
    requires !f.passed ==> f.severity == rule.severity
    ensures next == Plus(totals, Contribution(rule, f))
  {
    next := totals;
    var skipped := SaysSkipped(f.message);
    if f.passed && skipped {
      next := next.(skipped := next.skipped + 1, infos := next.infos + 1);
    } else if !f.passed {
      if f.severity == ERROR {
        next := next.(errors := next.errors + 1);
      } else if f.severity == WARNING {
        next := next.(warnings := next.warnings + 1);
      } else {
        next := next.(infos := next.infos + 1);
      }
    }
  }

  lemma RuleStep(ev: Evaluator, rule: Rule, lines: seq<ReturnLine>, j: nat)
    requires Honest(ev) && j < |lines|
    ensures var f := ev(rule, lines[j]);
      && (!f.passed ==> f.severity == rule.severity)
      && (f.message == EntityMismatch ==> Contribution(rule, f) == ZERO)
      && RuleTotals(ev, rule, lines[j..]) == Plus(Contribution(rule, f), RuleTotals(ev, rule, lines[j + 1..]))
      && RuleResults(ev, rule, lines[j..])
         == (if f.message == EntityMismatch then [] else [ResultOf(ev, rule, lines[j])])
            + RuleResults(ev, rule, lines[j + 1..])
  {
  }

  /** The body of the inner loop: what one line adds to the results and the counters. */
  method ValidateLine(ev: Evaluator, rule: Rule, lines: seq<ReturnLine>, j: nat, results: seq<Result>, totals: Totals)
    returns (results': seq<Result>, totals': Totals)
    requires Honest(ev) && j < |lines|
    ensures results' + RuleResults(ev, rule, lines[j + 1..]) == results + RuleResults(ev, rule, lines[j..])
    ensures Plus(totals', RuleTotals(ev, rule, lines[j + 1..])) == Plus(totals, RuleTotals(ev, rule, lines[j..]))
  {
    RuleStep(ev, rule, lines, j);
    var f := ev(rule, lines[j]);
    results', totals' := results, totals;
    var notApplicable := SaysNotApplicable(f.message);
    if !notApplicable {
      results' := results + [ResultOf(ev, rule, lines[j])];
      totals' := Count(totals, rule, f);
    }
    ghost var here := if notApplicable then [] else [ResultOf(ev, rule, lines[j])];
    Associate(results, here, RuleResults(ev, rule, lines[j + 1..]));
    PlusAssociates(totals, Contribution(rule, f), RuleTotals(ev, rule, lines[j + 1..]));
  }

  lemma Associate<T>(a: seq<T>, b: seq<T>, c: seq<T>)
    ensures (a + b) + c == a + (b + c)
  {
  }

  lemma PlusAssociates(a: Totals, b: Totals, c: Totals)
    ensures Plus(Plus(a, b), c) == Plus(a, Plus(b, c)) && Plus(a, ZERO) == a
  {
  }

  /** The inner loop: one rule against every line, reading each outcome off its message. */
  method ValidateRule(ev: Evaluator, rule: Rule, lines: seq<ReturnLine>) returns (results: seq<Result>, totals: Totals)
    requires Honest(ev)
    ensures results == RuleResults(ev, rule, lines)
    ensures totals == RuleTotals(ev, rule, lines)
  {
    results, totals := [], ZERO;
    for j := 0 to |lines|
      invariant results + RuleResults(ev, rule, lines[j..]) == RuleResults(ev, rule, lines)
      invariant Plus(totals, RuleTotals(ev, rule, lines[j..])) == RuleTotals(ev, rule, lines)
    {
      results, totals := ValidateLine(ev, rule, lines, j, results, totals);
    }
  }

  lemma ActiveStep(ev: Evaluator, rules: seq<Rule>, lines: seq<ReturnLine>, i: nat)
    requires i < |rules| && rules[i].isActive
    ensures AllResults(ev, rules[i..], lines)
         == RuleResults(ev, rules[i], lines) + AllResults(ev, rules[i + 1..], lines)
    ensures AllTotals(ev, rules[i..], lines)
         == Plus(RuleTotals(ev, rules[i], lines), AllTotals(ev, rules[i + 1..], lines))
  {
  }

  lemma NoRules(ev: Evaluator, lines: seq<ReturnLine>)
    ensures AllResults(ev, [], lines) == [] && AllTotals(ev, [], lines) == ZERO
    ensures forall t :: Plus(ZERO, t) == t && Plus(t, ZERO) == t
  {
  }

  method Validate(ev: Evaluator, rules: seq<Rule>, lines: seq<ReturnLine>)
    returns (results: seq<Result>, totals: Totals)
    requires Honest(ev)
    ensures results == AllResults(ev, rules, lines)
    ensures totals == AllTotals(ev, rules, lines)
  {
    hide RuleResults, RuleTotals, AllResults, AllTotals, Active, Plus;
    var activeRules := Active(rules);
    ActiveSuffices(ev, rules, lines);
    NoRules(ev, lines);
    assert activeRules[0..] == activeRules && activeRules[|activeRules|..] == [];
    results, totals := [], ZERO;
    for i := 0 to |activeRules|
      invariant results + AllResults(ev, activeRules[i..], lines) == AllResults(ev, activeRules, lines)
      invariant Plus(totals, AllTotals(ev, activeRules[i..], lines)) == AllTotals(ev, activeRules, lines)
    {
      ActiveStep(ev, activeRules, lines, i);
      var ruleResults, ruleTotals := ValidateRule(ev, activeRules[i], lines);
      Associate(results, ruleResults, AllResults(ev, activeRules[i + 1..], lines));
      PlusAssociates(totals, ruleTotals, AllTotals(ev, activeRules[i + 1..], lines));
      results := results + ruleResults;
      totals := Plus(totals, ruleTotals);
    }
  }

  /** The composer's body: the lines of the return and their validation. */
  method ComposeHesaReturn(returnType: ReturnType, cohort: Cohort, rules: seq<Rule>)
    returns (lines: seq<ReturnLine>, results: seq<Result>, totals: Totals)
    ensures lines == Lines(returnType, cohort)
    ensures results == AllResults(Evaluate, rules, lines)
    ensures totals == AllTotals(Evaluate, rules, lines)
    ensures Accounts(totals, results)
  {
    lines := Lines(returnType, cohort);
    EvaluateIsHonest();
    ValidationAccounting(Evaluate, rules, lines);
    results, totals := Validate(Evaluate, rules, lines);
  }

  // ---------------------------------------------------------------- accounting

  function Failed(severity: Severity): Result -> int {
    (r: Result) => if !r.finding.passed && r.rule.severity == severity then 1 else 0
  }

  function SkippedResult(r: Result): int { if IsSkipped(r.finding) then 1 else 0 }

  /** Errors and warnings are the failed results of rules with that severity; a skipped result counts as
      information along with the failed INFO ones. */
  ghost predicate Accounts(t: Totals, results: seq<Result>) {
    && t.errors == SumOf(results, Failed(ERROR)) && t.warnings == SumOf(results, Failed(WARNING))
    && t.infos == SumOf(results, Failed(INFO)) + SumOf(results, SkippedResult)
    && t.skipped == SumOf(results, SkippedResult)
  }

  lemma {:induction false} AccountsAppend(t: Totals, results: seq<Result>, t': Totals, results': seq<Result>)
    requires Accounts(t, results) && Accounts(t', results')
    ensures Accounts(Plus(t, t'), results + results')
  {
    SumOfAppend(results, results', Failed(ERROR));
    SumOfAppend(results, results', Failed(WARNING));
    SumOfAppend(results, results', Failed(INFO));
    SumOfAppend(results, results', SkippedResult);
  }

  lemma {:induction false} AccountsOne(ev: Evaluator, rule: Rule, line: ReturnLine)
    requires Honest(ev)
    ensures Accounts(Contribution(rule, ev(rule, line)), if Applies(rule, line) then [ResultOf(ev, rule, line)] else [])
    ensures Accounts(ZERO, [])
  {
    var r := ResultOf(ev, rule, line);
    assert [r][1..] == [];
    assert forall f: Result -> int :: SumOf([r], f) == f(r) + SumOf([], f);
  }

  lemma {:induction false} RuleAccounting(ev: Evaluator, rule: Rule, lines: seq<ReturnLine>)
    requires Honest(ev)
    ensures Accounts(RuleTotals(ev, rule, lines), RuleResults(ev, rule, lines))
  {
    hide RuleResults, RuleTotals, Contribution, Accounts, Plus;
    RuleUnfolds(ev, rule, lines);
    if lines == [] {
      NothingToAccount();
    } else {
      var line, rest := lines[0], lines[1..];
      RuleAccounting(ev, rule, rest);
      AccountsOne(ev, rule, line);
      AccountsAppend(Contribution(rule, ev(rule, line)), if Applies(rule, line) then [ResultOf(ev, rule, line)] else [],
                     RuleTotals(ev, rule, rest), RuleResults(ev, rule, rest));
    }
  }

  lemma NothingToAccount()
    ensures Accounts(ZERO, [])
  {
  }

  lemma RuleUnfolds(ev: Evaluator, rule: Rule, lines: seq<ReturnLine>)
    ensures lines == [] ==> RuleResults(ev, rule, lines) == [] && RuleTotals(ev, rule, lines) == ZERO
    ensures lines != [] ==>
      && RuleTotals(ev, rule, lines)
         == Plus(Contribution(rule, ev(rule, lines[0])), RuleTotals(ev, rule, lines[1..]))
      && RuleResults(ev, rule, lines)
         == (if Applies(rule, lines[0]) then [ResultOf(ev, rule, lines[0])] else []) + RuleResults(ev, rule, lines[1..])
  {
  }

  /** The counts are those of the results, severity by severity. */
  lemma {:induction false} ValidationAccounting(ev: Evaluator, rules: seq<Rule>, lines: seq<ReturnLine>)
    requires Honest(ev)
    ensures Accounts(AllTotals(ev, rules, lines), AllResults(ev, rules, lines))
  {
    hide RuleResults, RuleTotals, Honest, Accounts, Plus;
    if rules == [] {
      NothingToAccount();
    } else {
      ValidationAccounting(ev, rules[1..], lines);
      if rules[0].isActive {
        RuleAccounting(ev, rules[0], lines);
        AccountsAppend(RuleTotals(ev, rules[0], lines), RuleResults(ev, rules[0], lines),
                       AllTotals(ev, rules[1..], lines), AllResults(ev, rules[1..], lines));
      } else {
        assert [] + AllResults(ev, rules[1..], lines) == AllResults(ev, rules[1..], lines);
      }
    }
  }

  /** Results come rule by rule and, for each rule, line by line: splitting the rules, or the lines of a
      rule, splits the results, and one rule meets one line in a result exactly when the rule is active and
      of the line's entity type. */
  lemma {:induction false} ResultsSplit(ev: Evaluator, rules: seq<Rule>, more: seq<Rule>, rule: Rule,
                                        lines: seq<ReturnLine>, others: seq<ReturnLine>, line: ReturnLine)
    ensures AllResults(ev, rules + more, lines) == AllResults(ev, rules, lines) + AllResults(ev, more, lines)
    ensures AllResults(ev, [rule], lines + others) == AllResults(ev, [rule], lines) + AllResults(ev, [rule], others)
    ensures AllResults(ev, [rule], [line])
         == if rule.isActive && rule.entityType == Some(line.entityType)
            then [Result(rule, line.entityType, line.entityId, ev(rule, line))] else []
  {
    RulesSplit(ev, rules, more, lines);
    LinesSplit(ev, rule, lines, others);
    OneRule(ev, rule, lines + others);
    OneRule(ev, rule, lines);
    OneRule(ev, rule, others);
    OneRule(ev, rule, [line]);
    assert [line][1..] == [];
    assert RuleResults(ev, rule, []) == [];
  }

  lemma {:induction false} OneRule(ev: Evaluator, rule: Rule, lines: seq<ReturnLine>)
    ensures AllResults(ev, [rule], lines) == if rule.isActive then RuleResults(ev, rule, lines) else []
  {
    assert [rule][1..] == [];
    assert AllResults(ev, [], lines) == [];
  }

  lemma {:induction false} RulesSplit(ev: Evaluator, rules: seq<Rule>, more: seq<Rule>, lines: seq<ReturnLine>)
    ensures AllResults(ev, rules + more, lines) == AllResults(ev, rules, lines) + AllResults(ev, more, lines)
  {
    if rules == [] {
      assert rules + more == more;
    } else {
      assert (rules + more)[1..] == rules[1..] + more;
      RulesSplit(ev, rules[1..], more, lines);
    }
  }

  lemma {:induction false} LinesSplit(ev: Evaluator, rule: Rule, lines: seq<ReturnLine>, others: seq<ReturnLine>)
    ensures RuleResults(ev, rule, lines + others) == RuleResults(ev, rule, lines) + RuleResults(ev, rule, others)
  {
    if lines == [] {
      assert lines + others == others;
    } else {
      assert (lines + others)[1..] == lines[1..] + others;
      LinesSplit(ev, rule, lines[1..], others);
    }
  }

  lemma {:induction false} RuleErrors(ev: Evaluator, rule: Rule, lines: seq<ReturnLine>)
    ensures RuleTotals(ev, rule, lines).errors == 0
       <==> (rule.severity == ERROR ==> forall line :: line in lines ==> ev(rule, line).passed)
  {
    if lines == [] {
    } else {
      RuleErrors(ev, rule, lines[1..]);
    }
  }

  /** A return is free of errors exactly when no active ERROR rule fails on any line. */
  lemma {:induction false} NoErrorsIff(ev: Evaluator, rules: seq<Rule>, lines: seq<ReturnLine>)
    ensures AllTotals(ev, rules, lines).errors == 0
       <==> forall rule, line :: rule in rules && line in lines && rule.isActive && rule.severity == ERROR
              ==> ev(rule, line).passed
  {
    if rules == [] {
    } else {
      NoErrorsIff(ev, rules[1..], lines);
      RuleErrors(ev, rules[0], lines);
    }
  }

  // ---------------------------------------------------------------- from cohort to file

  function EntityName(e: Entity): string {
    match e
    case HESAStudent => "HESAStudent"
    case HESAModule => "HESAModule"
    case Programme => "Programme"
  }

  function CsvLine(l: ReturnLine): Line { Line(l.recordKey, EntityName(l.entityType), l.fields) }

  /** What one cell of a return line shows: its value as text, nothing where it has none. */
  function CellText(l: ReturnLine): string -> string {
    (column: string) => if column in l.fields then Render(l.fields[column]) else ""
  }

  /** One record of the file: the keys, then the line's cells in column order. */
  function FileRecord(columns: seq<string>): ReturnLine -> seq<string> {
    (l: ReturnLine) => [l.recordKey, EntityName(l.entityType)] + Map(CellText(l), columns)
  }

  function FileTrailer(academicYear: string, returnName: string, generatedDate: string, records: nat, totals: Totals)
    : seq<seq<string>>
  {
    [[""],
     ["# Academic year", academicYear], ["# Return type", returnName], ["# Generated", generatedDate],
     ["# Records", Decimal(records)], ["# Errors", Decimal(totals.errors)],
     ["# Warnings", Decimal(totals.warnings)], ["# Info", Decimal(totals.infos)]]
  }

  /** The record of a line that shows a row: its key, the name of its kind, and for each column what the row
      holds there. */
  lemma RecordShowsRow(l: ReturnLine, r: Record, entity: Entity, columns: seq<string>, k: nat)
    requires ShowsRow(l, r, entity) && k < |columns|
    ensures var record := FileRecord(columns)(l);
      && |record| == 2 + |columns|
      && record[0] == (match r.key case Some(key) => key case None => r.fallback)
      && record[1] == (match entity
                       case HESAStudent => "HESAStudent"
                       case HESAModule => "HESAModule"
                       case Programme => "Programme")
      && record[2 + k] == (if columns[k] !in r.fields then "" else
                           match r.fields[columns[k]] case Null => "" case Text(s) => s case Shown(t) => t)
  {
  }

  /** The trailer's counts, as the numbers its texts spell. */
  ghost predicate TrailerCounts(t: seq<seq<string>>, records: nat, totals: Totals) {
    && |t| == 8 && Counts(t[4], "# Records", records) && Counts(t[5], "# Errors", totals.errors)
    && Counts(t[6], "# Warnings", totals.warnings) && Counts(t[7], "# Info", totals.infos)
  }

  lemma {:induction false} FileTrailerCounts(academicYear: string, returnName: string, generatedDate: string,
                                             records: nat, totals: Totals)
    ensures TrailerCounts(FileTrailer(academicYear, returnName, generatedDate, records, totals), records, totals)
  {
    hide Decimal, Spells;
    DecimalSpells(records);
    DecimalSpells(totals.errors);
    DecimalSpells(totals.warnings);
    DecimalSpells(totals.infos);
  }

  lemma MapConcat<T, U>(f: T -> U, a: seq<T>, b: seq<T>)
    ensures Map(f, a + b) == Map(f, a) + Map(f, b)
  {
  }

  lemma HeaderRecord(c: Composition)
    ensures Rendered(Header(c)) == ["RecordKey", "EntityType"] + c.columnOrder
  {
  }

  lemma {:induction false} DataRecords(lines: seq<ReturnLine>, columns: seq<string>)
    ensures Map(Rendered, Map(DataRow(columns), Map(CsvLine, lines))) == Map(FileRecord(columns), lines)
  {
    forall i | 0 <= i < |lines|
      ensures Rendered(DataRow(columns)(CsvLine(lines[i]))) == FileRecord(columns)(lines[i])
    {
      DataRecord(lines[i], columns);
    }
  }

  lemma DataRecord(l: ReturnLine, columns: seq<string>)
    ensures Rendered(DataRow(columns)(CsvLine(l))) == FileRecord(columns)(l)
  {
  }

  lemma {:induction false} TrailerRecords(c: Composition, totals: Totals)
    requires c.errorCount == totals.errors && c.warningCount == totals.warnings && c.infoCount == totals.infos
    ensures Map(Rendered, [[Text("")]] + Map(NoteRow, Notes(c)))
         == FileTrailer(c.academicYear, c.returnType, c.generatedDate, c.recordCount, totals)
  {
    hide Decimal;
    var rows := [[Text("")]] + Map(NoteRow, Notes(c));
    assert |rows| == 8;
    assert Rendered(rows[0]) == [""];
    forall i | 1 <= i < 8 ensures Rendered(rows[i]) == [Render(rows[i][0]), Render(rows[i][1])] {}
  }

  /** The composition that exports a cohort's lines. */
  lemma {:induction false} RecordsAreFile(c: Composition, lines: seq<ReturnLine>, totals: Totals)
    requires c.lines == Map(CsvLine, lines)
    requires c.errorCount == totals.errors && c.warningCount == totals.warnings && c.infoCount == totals.infos
    ensures Records(c) == [["RecordKey", "EntityType"] + c.columnOrder] + Map(FileRecord(c.columnOrder), lines)
                          + FileTrailer(c.academicYear, c.returnType, c.generatedDate, c.recordCount, totals)
  {
    hide Rendered, Header, NoteRow, Notes, FileTrailer;
    var data, trailer := Map(DataRow(c.columnOrder), c.lines), [[Text("")]] + Map(NoteRow, Notes(c));
    assert Table(c) == [Header(c)] + data + trailer;
    MapConcat(Rendered, [Header(c)] + data, trailer);
    MapConcat(Rendered, [Header(c)], data);
    assert Map(Rendered, [Header(c)]) == [Rendered(Header(c))];
    HeaderRecord(c);
    DataRecords(lines, c.columnOrder);
    TrailerRecords(c, totals);
  }

  /** Compose a return and export it: the file parses to the header, one record per cohort row in the
      order of the lines with every cell's text, and the trailer with the true counts. */
  method ExportReturn(returnType: ReturnType, cohort: Cohort, rules: seq<Rule>, columnOrder: seq<string>,
                      academicYear: string, returnName: string, generatedDate: string)
    returns (csv: string)
    ensures var lines := Lines(returnType, cohort);
      var totals := AllTotals(Evaluate, rules, lines);
      var trailer := FileTrailer(academicYear, returnName, generatedDate, |lines|, totals);
      && ParseFile(csv)
         == Some([["RecordKey", "EntityType"] + columnOrder] + Map(FileRecord(columnOrder), lines) + trailer)
      && TrailerCounts(trailer, |lines|, totals) && Accounts(totals, AllResults(Evaluate, rules, lines))
  {
    hide ParseFile, Records, FileTrailer, AllTotals, AllResults, Accounts, TrailerCounts, EndsInTrailer;
    var lines, results, totals := ComposeHesaReturn(returnType, cohort, rules);
    FileTrailerCounts(academicYear, returnName, generatedDate, |lines|, totals);
    var c := Composition(academicYear, returnName, generatedDate, columnOrder, Map(CsvLine, lines),
                         |lines|, totals.errors, totals.warnings, totals.infos);
    csv := ExportHesaReturnAsCsv(c);
    RecordsAreFile(c, lines, totals);
  }
}
