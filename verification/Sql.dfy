/**
 A reader for the WHERE clauses the statistics endpoint sends: conditions of the
 form `column operator operand`, joined by AND.  It knows the grammar and the
 columns of the table, and nothing of the compiler that writes the clauses.
 */
module Sql {
  import opened Options
  import opened Json
  import opened Calendar

  datatype Arg = TextArg(s: string) | TimeArg(t: Instant)

  /** The columns of a dataset row that a clause can ask about. */
  datatype StatsRow = StatsRow(published: bool, schema: string, owner: string, created: Instant, blob: Json)

  /** blob->>'key': None is SQL's NULL. */
  function TextMember(blob: Json, key: string): Option<string> {
    match Lookup(blob, [key])
    case None => None
    case Some(Null) => None
    case Some(j) => Some(TextOf(j))
  }

  /** A missing member and null are NULL; any other scalar is its text. */
  lemma MemberTexts(blob: Json, key: string)
    ensures var found := Lookup(blob, [key]);
            && (found == None || found == Some(Null) ==> TextMember(blob, key) == None)
            && (found.Some? && found.value.Str? ==> TextMember(blob, key) == Some(found.value.s))
            && (found.Some? && found.value.Num? ==> TextMember(blob, key) == Some(found.value.n.text))
            && (found.Some? && !found.value.Null? ==> TextMember(blob, key).Some?)
  {
    hide Lookup;
  }

  // ---------- reading one condition ----------

  datatype Column = PublishedColumn | SchemaColumn | OwnerColumn | CreatedColumn | DocumentText(key: string)

  datatype Operator = Equal | NotEqual | Less | AtMost | More | AtLeast

  datatype SqlValue = BoolValue(b: bool) | TextValue(s: string) | TimeValue(t: Instant) | NullText

  datatype Operand = Constant(value: SqlValue) | Argument(n: nat)

  datatype Condition = Condition(column: Column, operator: Operator, operand: Operand)

  predicate IsNameChar(c: char) { 'a' <= c <= 'z' || c == '_' }

  function NameLength(s: string): (n: nat)
    ensures n <= |s|
  {
    if s != "" && IsNameChar(s[0]) then 1 + NameLength(s[1..]) else 0
  }

  function SkipSpaces(s: string): string {
    if s != "" && s[0] == ' ' then SkipSpaces(s[1..]) else s
  }

  function ColumnNamed(name: string): Option<Column> {
    if name == "published" then Some(PublishedColumn)
    else if name == "schema" then Some(SchemaColumn)
    else if name == "owner" then Some(OwnerColumn)
    else if name == "created" then Some(CreatedColumn)
    else None
  }

  const ARROW := "->>'"

  /** A column, or a text member of the document; and what follows it. */
  function ReadColumn(s: string): Option<(Column, string)> {
    var n := NameLength(s);
    var name, rest := s[..n], s[n..];
    if name == "blob" && ARROW <= rest then
      var k := NameLength(rest[4..]);
      var after := rest[4 + k..];
      if after != "" && after[0] == '\'' then Some((DocumentText(rest[4..4 + k]), after[1..])) else None
    else
      var column := ColumnNamed(name);
      if column.Some? then Some((column.value, rest)) else None
  }

  function ReadOperator(s: string): Option<(Operator, string)> {
    if s == "" then None
    else if s[0] == '=' then Some((Equal, s[1..]))
    else if s[0] == '<' then
      if |s| > 1 && s[1] == '>' then Some((NotEqual, s[2..]))
      else if |s| > 1 && s[1] == '=' then Some((AtMost, s[2..]))
      else Some((Less, s[1..]))
    else if s[0] == '>' then
      if |s| > 1 && s[1] == '=' then Some((AtLeast, s[2..])) else Some((More, s[1..]))
    else None
  }

  function ReadOperand(s: string): Option<Operand> {
    if s == "true" then Some(Constant(BoolValue(true)))
    else if s == "false" then Some(Constant(BoolValue(false)))
    else if |s| < 2 then None
    else if s[0] == '$' && AllDigits(s[1..]) then Some(Argument(DigitsValue(s[1..])))
    else if s[0] == '\'' && s[|s| - 1] == '\'' && '\'' !in s[1..|s| - 1] then Some(Constant(TextValue(s[1..|s| - 1])))
    else None
  }

  function ReadCondition(s: string): Option<Condition> {
    var column := ReadColumn(s);
    if column.None? then None
    else
      var operator := ReadOperator(SkipSpaces(column.value.1));
      if operator.None? then None
      else
        var operand := ReadOperand(SkipSpaces(operator.value.1));
        if operand.None? then None else Some(Condition(column.value.0, operator.value.0, operand.value))
  }

  // ---------- evaluating ----------

  function ColumnValue(c: Column, row: StatsRow): SqlValue {
    match c
    case PublishedColumn => BoolValue(row.published)
    case SchemaColumn => TextValue(row.schema)
    case OwnerColumn => TextValue(row.owner)
    case CreatedColumn => TimeValue(row.created)
    case DocumentText(key) => if TextMember(row.blob, key).Some? then TextValue(TextMember(row.blob, key).value) else NullText
  }

  /** None when the number of the placeholder is out of range. */
  function OperandValue(o: Operand, args: seq<Arg>): Option<SqlValue> {
    match o
    case Constant(value) => Some(value)
    case Argument(n) =>
      if !(1 <= n <= |args|) then None
      else
        match args[n - 1]
        case TextArg(s) => Some(TextValue(s))
        case TimeArg(t) => Some(TimeValue(t))
  }

  /** Two values of one type; None when the types do not fit.  A comparison with NULL selects no row. */
  function Compare(a: SqlValue, op: Operator, b: SqlValue): Option<bool> {
    match (a, b)
    case (BoolValue(x), BoolValue(y)) => SameOrNot(op, x == y)
    case (TextValue(x), TextValue(y)) => SameOrNot(op, x == y)
    case (NullText, TextValue(_)) => Some(false)
    case (TimeValue(x), TimeValue(y)) => Some(InOrder(x, op, y))
    case _ => None
  }

  /** The order of texts depends on a collation and is not modelled. */
  function SameOrNot(op: Operator, same: bool): Option<bool> {
    match op
    case Equal => Some(same)
    case NotEqual => Some(!same)
    case _ => None
  }

  predicate InOrder(x: Instant, op: Operator, y: Instant) {
    match op
    case Equal => x == y
    case NotEqual => x != y
    case Less => x < y
    case AtMost => x <= y
    case More => x > y
    case AtLeast => x >= y
  }

  /** None when the statement would be rejected: unknown text, a number out of range, a wrong type. */
  function EvalCondition(c: string, args: seq<Arg>, row: StatsRow): Option<bool> {
    var read := ReadCondition(c);
    if read.None? then None
    else
      var value := OperandValue(read.value.operand, args);
      if value.None? then None else Compare(ColumnValue(read.value.column, row), read.value.operator, value.value)
  }

  function EvalAll(cs: seq<string>, args: seq<Arg>, row: StatsRow): Option<bool> {
    if cs == [] then Some(true)
    else
      var first := EvalCondition(cs[0], args, row);
      var rest := EvalAll(cs[1..], args, row);
      if first.Some? && rest.Some? then Some(first.value && rest.value) else None
  }

  const AND := " AND "
  const WHERE := "WHERE "

  function FindAnd(s: string, i: nat): (k: nat)
    requires i <= |s|
    ensures i <= k <= |s|
    ensures k < |s| ==> AND <= s[k..]
    decreases |s| - i
  {
    if i == |s| || AND <= s[i..] then i else FindAnd(s, i + 1)
  }

  function SplitAnd(s: string): seq<string>
    decreases |s|
  {
    var k := FindAnd(s, 0);
    if k == |s| then [s] else [s[..k]] + SplitAnd(s[k + 5..])
  }

  /** The rows a clause with its arguments selects; the empty clause selects all. */
  function EvalWhere(text: string, args: seq<Arg>, row: StatsRow): Option<bool> {
    if text == "" then Some(true)
    else if WHERE <= text then EvalAll(SplitAnd(text[6..]), args, row)
    else None
  }

  // ---------- reading texts put together from parts ----------

  predicate IsName(s: string) { forall c <- s :: IsNameChar(c) }

  predicate EndsName(rest: string) { rest == "" || !IsNameChar(rest[0]) }

  lemma {:induction false} NameRead(name: string, rest: string)
    requires IsName(name) && EndsName(rest)
    ensures NameLength(name + rest) == |name| && (name + rest)[..|name|] == name && (name + rest)[|name|..] == rest
  {
    var s := name + rest;
    if name == "" {
      assert s == rest;
    } else {
      assert s[0] == name[0] && name[0] in name && s[1..] == name[1..] + rest;
      NameRead(name[1..], rest);
    }
  }

  lemma ColumnRead(name: string, rest: string)
    requires IsName(name) && EndsName(rest) && ColumnNamed(name).Some? && |name| != 4
    ensures ReadColumn(name + rest) == Some((ColumnNamed(name).value, rest))
  {
    hide ColumnNamed;
    NameRead(name, rest);
  }

  lemma BlobIsName()
    ensures IsName("blob") && !IsNameChar(ARROW[0])
  {
  }

  lemma DocumentRead(key: string, rest: string)
    requires IsName(key)
    ensures ReadColumn("blob" + (ARROW + (key + ("'" + rest)))) == Some((DocumentText(key), rest))
  {
    hide ColumnNamed;
    BlobIsName();
    var inner := key + ("'" + rest);
    assert (ARROW + inner)[0] == ARROW[0];
    NameRead("blob", ARROW + inner);
    assert (ARROW + inner)[4..] == inner;
    NameRead(key, "'" + rest);
    assert (ARROW + inner)[4..4 + |key|] == inner[..|key|];
    assert (ARROW + inner)[4 + |key|..] == inner[|key|..];
    assert ("'" + rest)[1..] == rest;
  }

  /** A condition is read part by part. */
  lemma PartsRead(s: string, column: Column, rest: string, operator: Operator, tail: string, operand: Operand)
    requires ReadColumn(s) == Some((column, rest))
    requires ReadOperator(SkipSpaces(rest)) == Some((operator, tail))
    requires ReadOperand(SkipSpaces(tail)) == Some(operand)
    ensures ReadCondition(s) == Some(Condition(column, operator, operand))
  {
    hide ReadColumn, ReadOperator, ReadOperand, SkipSpaces;
  }

  lemma EqualsRead(operand: string)
    requires operand != "" && operand[0] != ' '
    ensures ReadOperator(SkipSpaces("=" + operand)) == Some((Equal, operand)) && SkipSpaces(operand) == operand
  {
    assert ("=" + operand)[1..] == operand;
  }

  lemma OneSpace(rest: string)
    requires rest != "" && rest[0] != ' '
    ensures SkipSpaces(" " + rest) == rest
  {
    assert (" " + rest)[1..] == rest;
  }

  lemma LessRead(rest: string)
    requires rest != "" && rest[0] == ' '
    ensures ReadOperator("<" + rest) == Some((Less, rest))
  {
    assert ("<" + rest)[1] == ' ' && ("<" + rest)[1..] == rest;
  }

  lemma AtLeastRead(rest: string)
    ensures ReadOperator(">=" + rest) == Some((AtLeast, rest))
  {
    assert (">=" + rest)[0] == '>' && (">=" + rest)[1] == '=' && (">=" + rest)[2..] == rest;
  }

  /** ` < ` and ` >= ` with the spaces the compiler puts around them. */
  lemma SpacedRead(operand: string)
    requires operand != "" && operand[0] != ' '
    ensures ReadOperator(SkipSpaces(" < " + operand)) == Some((Less, " " + operand))
    ensures ReadOperator(SkipSpaces(" >= " + operand)) == Some((AtLeast, " " + operand))
    ensures SkipSpaces(" " + operand) == operand
  {
    hide ReadOperator, SkipSpaces;
    var spaced := " " + operand;
    assert " < " + operand == " " + ("<" + spaced);
    assert " >= " + operand == " " + (">=" + spaced);
    OneSpace("<" + spaced);
    OneSpace(">=" + spaced);
    OneSpace(operand);
    LessRead(spaced);
    AtLeastRead(spaced);
  }

  lemma ArgumentRead(digits: string)
    requires digits != "" && AllDigits(digits)
    ensures ReadOperand("$" + digits) == Some(Argument(DigitsValue(digits)))
    ensures ("$" + digits)[0] != ' '
  {
    var s := "$" + digits;
    assert s[0] == '$' && s[1..] == digits;
    assert "true"[0] == 't' && "false"[0] == 'f';
  }

  lemma TextRead(text: string)
    requires '\'' !in text
    ensures ReadOperand("'" + (text + "'")) == Some(Constant(TextValue(text)))
  {
    var s := "'" + (text + "'");
    assert s[0] == '\'' && s[|s| - 1] == '\'' && s[1..|s| - 1] == text;
    assert "true"[0] == 't' && "false"[0] == 'f';
  }
}
