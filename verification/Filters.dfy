/**
 The statistics filter compiler: a DatasetFilter becomes SQL text with numbered
 placeholders and a list of arguments.  The reader of module Sql, which does not
 know the compiler, takes the text for the conjunction of the filter.
 */
module Filters {
  import opened Options
  import opened Json
  import opened Calendar
  import opened TimeFilters
  import opened Sql

  datatype DatasetFilter = DatasetFilter(
    onlyDrafts: bool, onlyPublished: bool, onlyAtt: bool, onlyIda: bool,
    dateCreated: seq<TimeFilter>, user: string, organization: string, groupBy: string, qvainOwner: string)

  /** What a filter means, without any SQL. */
  predicate Matches(f: DatasetFilter, row: StatsRow) {
    && (f.onlyDrafts ==> !row.published)
    && (f.onlyPublished ==> row.published)
    && (f.onlyAtt ==> row.schema == "metax-att")
    && (f.onlyIda ==> row.schema == "metax-ida")
    && (f.user != "" ==> TextMember(row.blob, "metadata_provider_user") == Some(f.user))
    && (f.organization != "" ==> TextMember(row.blob, "metadata_provider_org") == Some(f.organization))
    && (f.qvainOwner != "" ==> row.owner == f.qvainOwner)
    && (forall t <- f.dateCreated :: Selects(t, row.created))
  }

  // ---------- decimal numerals ----------

  function Itoa(n: nat): (s: string)
    ensures s != "" && AllDigits(s)
  {
    if n < 10 then [DigitChar(n)] else Itoa(n / 10) + [DigitChar(n % 10)]
  }

  lemma {:induction false} ItoaValue(n: nat)
    ensures DigitsValue(Itoa(n)) == n
    decreases n
  {
    var s := Itoa(n);
    if n < 10 {
      assert s[..0] == "";
    } else {
      ItoaValue(n / 10);
      assert s[..|s| - 1] == Itoa(n / 10);
    }
  }

  // ---------- the conditions of the WHERE clause ----------

  datatype Kind = Draft | Published | Att | Ida | UserIs | OrgIs | OwnerIs | CreatedBefore | CreatedFrom {
    predicate TakesArg() { !Draft? && !Published? && !Att? && !Ida? }

    /** The fixed text of a condition, up to its placeholder if it has one. */
    function Stem(): string {
      match this
      case Draft => "published=false"
      case Published => "published=true"
      case Att => "schema='metax-att'"
      case Ida => "schema='metax-ida'"
      case UserIs => "blob->>'metadata_provider_user'="
      case OrgIs => "blob->>'metadata_provider_org'="
      case OwnerIs => "owner="
      case CreatedBefore => "created < "
      case CreatedFrom => "created >= "
    }

    function Template(): string {
      if TakesArg() then Stem() + "$" else Stem()
    }
  }

  /** What a kind of condition asks; None when the argument does not have the type of the column. */
  function KindHolds(kind: Kind, arg: Option<Arg>, row: StatsRow): Option<bool> {
    match (kind, arg)
    case (Draft, _) => Some(!row.published)
    case (Published, _) => Some(row.published)
    case (Att, _) => Some(row.schema == "metax-att")
    case (Ida, _) => Some(row.schema == "metax-ida")
    case (UserIs, Some(TextArg(s))) => Some(TextMember(row.blob, "metadata_provider_user") == Some(s))
    case (OrgIs, Some(TextArg(s))) => Some(TextMember(row.blob, "metadata_provider_org") == Some(s))
    case (OwnerIs, Some(TextArg(s))) => Some(row.owner == s)
    case (CreatedBefore, Some(TimeArg(t))) => Some(row.created < t)
    case (CreatedFrom, Some(TimeArg(t))) => Some(row.created >= t)
    case _ => None
  }

  // ---------- what the builder produces ----------

  /** One added condition. */
  datatype Item = Item(kind: Kind, arg: Option<Arg>)

  /** strings.Replace of every $. */
  function ReplaceDollar(s: string, r: string): string {
    if s == "" then "" else (if s[0] == '$' then r else [s[0]]) + ReplaceDollar(s[1..], r)
  }

  function Placeholder(n: nat): string { "$" + Itoa(n) }

  /** The text of one condition whose argument, if any, is the n-th. */
  function ConditionText(k: Kind, n: nat): string {
    if k.TakesArg() then k.Stem() + Placeholder(n) else k.Stem()
  }

  function ArgsOf(items: seq<Item>): seq<Arg> {
    if items == [] then []
    else
      var last := items[|items| - 1];
      ArgsOf(items[..|items| - 1]) + if last.arg.Some? then [last.arg.value] else []
  }

  function ConditionsOf(items: seq<Item>): (cs: seq<string>)
    ensures |cs| == |items|
  {
    if items == [] then []
    else ConditionsOf(items[..|items| - 1]) + [ConditionText(items[|items| - 1].kind, |ArgsOf(items)|)]
  }

  function Join(cs: seq<string>): string
    requires cs != []
  {
    if |cs| == 1 then cs[0] else cs[0] + AND + Join(cs[1..])
  }

  function WhereText(items: seq<Item>): string {
    if items == [] then "" else WHERE + Join(ConditionsOf(items))
  }

  function When<T>(enabled: bool, ts: seq<T>): seq<T> {
    if enabled then ts else []
  }

  function DateItems(t: TimeFilter): seq<Item> {
    When(!t.IsZero(),
         match t.comparison
         case Eq => [Item(CreatedBefore, Some(TimeArg(t.End()))), Item(CreatedFrom, Some(TimeArg(t.time)))]
         case Le => [Item(CreatedBefore, Some(TimeArg(t.End())))]
         case Ge => [Item(CreatedFrom, Some(TimeArg(t.time)))]
         case Lt => [Item(CreatedBefore, Some(TimeArg(t.time)))]
         case Gt => [Item(CreatedFrom, Some(TimeArg(t.End())))])
  }

  function AllDateItems(ts: seq<TimeFilter>): seq<Item> {
    if ts == [] then [] else AllDateItems(ts[..|ts| - 1]) + DateItems(ts[|ts| - 1])
  }

  function FlagItems(f: DatasetFilter): seq<Item> {
    When(f.onlyDrafts, [Item(Draft, None)]) + When(f.onlyPublished, [Item(Published, None)])
    + When(f.onlyAtt, [Item(Att, None)]) + When(f.onlyIda, [Item(Ida, None)])
  }

  function TextItems(f: DatasetFilter): seq<Item> {
    When(f.user != "", [Item(UserIs, Some(TextArg(f.user)))])
    + When(f.organization != "", [Item(OrgIs, Some(TextArg(f.organization)))])
    + When(f.qvainOwner != "", [Item(OwnerIs, Some(TextArg(f.qvainOwner)))])
  }

  function ItemsOf(f: DatasetFilter): seq<Item> {
    FlagItems(f) + TextItems(f) + AllDateItems(f.dateCreated)
  }

  // ---------- the builder ----------

  class WhereBuilder {
    var conditions: seq<string>
    var args: seq<Arg>

    /** The conditions and arguments are those of a list of items. */
    ghost predicate Built(items: seq<Item>)
      reads this
    {
      conditions == ConditionsOf(items) && args == ArgsOf(items)
    }

    constructor ()
      ensures Built([])
    {
      conditions, args := [], [];
    }

    method AddArg(param: Arg) returns (placeholder: string)
      modifies this`args
      ensures args == old(args) + [param]
      ensures placeholder == Placeholder(|args|)
    {
      args := args + [param];
      placeholder := "$" + Itoa(|args|);
    }

    method AddCondition(c: string)
      modifies this`conditions
      ensures conditions == old(conditions) + [c]
    {
      conditions := conditions + [c];
    }

    method MaybeAdd(enabled: bool, query: Kind, ghost items: seq<Item>)
      requires Built(items) && !query.TakesArg()
      modifies this
      ensures Built(items + When(enabled, [Item(query, None)]))
    {
      if enabled {
        AddCondition(query.Template());
        BuiltStep(items, Item(query, None));
      } else {
        assert items + [] == items;
      }
    }

    method MaybeAddString(s: string, query: Kind, ghost items: seq<Item>)
      requires Built(items) && query.TakesArg()
      modifies this
      ensures Built(items + When(s != "", [Item(query, Some(TextArg(s)))]))
    {
      if s != "" {
        var placeholder := AddArg(TextArg(s));
        AddCondition(ReplaceDollar(query.Template(), placeholder));
        TemplateText(query, |args|);
        BuiltStep(items, Item(query, Some(TextArg(s))));
      } else {
        assert items + [] == items;
      }
    }

    method AddComparison(query: Kind, t: Instant, ghost items: seq<Item>)
      requires Built(items) && (query.CreatedBefore? || query.CreatedFrom?)
      modifies this
      ensures Built(items + [Item(query, Some(TimeArg(t)))])
    {
      var placeholder := AddArg(TimeArg(t));
      AddCondition(query.Stem() + placeholder);
      BuiltStep(items, Item(query, Some(TimeArg(t))));
    }

    method MaybeAddTimeFilter(filter: TimeFilter, ghost items: seq<Item>)
      requires Built(items)
      modifies this
      ensures Built(items + DateItems(filter))
    {
      if filter.IsZero() {
        assert items + [] == items;
      } else {
        match filter.comparison {
          case Eq =>
            ghost var first := Item(CreatedBefore, Some(TimeArg(filter.End())));
            AddComparison(CreatedBefore, filter.End(), items);
            AddComparison(CreatedFrom, filter.time, items + [first]);
            assert items + [first] + [Item(CreatedFrom, Some(TimeArg(filter.time)))] == items + DateItems(filter);
          case Le => AddComparison(CreatedBefore, filter.End(), items);
          case Ge => AddComparison(CreatedFrom, filter.time, items);
          case Lt => AddComparison(CreatedBefore, filter.time, items);
          case Gt => AddComparison(CreatedFrom, filter.End(), items);
        }
      }
    }

    method Where(ghost items: seq<Item>) returns (text: string, arguments: seq<Arg>)
      requires Built(items)
      ensures text == WhereText(items) && arguments == ArgsOf(items)
    {
      if |conditions| == 0 {
        return "", [];
      }
      return WHERE + Join(conditions), args;
    }
  }

  lemma BuiltStep(items: seq<Item>, i: Item)
    ensures ArgsOf(items + [i]) == ArgsOf(items) + if i.arg.Some? then [i.arg.value] else []
    ensures ConditionsOf(items + [i]) == ConditionsOf(items) + [ConditionText(i.kind, |ArgsOf(items + [i])|)]
  {
    assert (items + [i])[..|items + [i]| - 1] == items;
  }

  /** Replacing the $ of a template gives the text that ends in the placeholder. */
  lemma TemplateText(k: Kind, n: nat)
    requires k.TakesArg()
    ensures ReplaceDollar(k.Template(), Placeholder(n)) == ConditionText(k, n)
  {
    StemPlain(k);
    ReplaceLastDollar(k.Stem(), Placeholder(n));
  }

  // ---------- splitting undoes joining ----------

  lemma {:induction false} ReplaceLastDollar(s: string, r: string)
    requires '$' !in s
    ensures ReplaceDollar(s + "$", r) == s + r
  {
    if s == "" {
      assert ReplaceDollar("$", r) == r + ReplaceDollar("", r);
    } else {
      ReplaceLastDollar(s[1..], r);
      assert (s + "$")[1..] == s[1..] + "$";
      assert s == [s[0]] + s[1..];
    }
  }

  lemma NoAndInside(c: string, rest: string, i: nat)
    requires i < |c| && 'A' !in c && (rest == "" || rest[0] == ' ')
    ensures !(AND <= (c + rest)[i..])
  {
    var t := (c + rest)[i..];
    assert AND[1] == 'A';
    assert |t| > 1 ==> t[1] == if i + 1 < |c| then c[i + 1] else rest[0];
    assert |t| >= 5 ==> t[..5][1] == t[1];
  }

  lemma {:induction false} FindAndSkips(c: string, rest: string, i: nat)
    requires i <= |c| && 'A' !in c && (rest == "" || AND <= rest)
    ensures FindAnd(c + rest, i) == |c|
    decreases |c| - i
  {
    if i < |c| {
      NoAndInside(c, rest, i);
      FindAndSkips(c, rest, i + 1);
    } else {
      assert (c + rest)[i..] == rest;
    }
  }

  lemma SplitFirst(c: string, rest: string)
    requires FindAnd(c + (AND + rest), 0) == |c|
    ensures SplitAnd(c + (AND + rest)) == [c] + SplitAnd(rest)
  {
    hide FindAnd;
    var s := c + (AND + rest);
    assert |AND| == 5;
    assert s[..|c|] == c && s[|c| + 5..] == rest;
  }

  lemma {:induction false} SplitJoin(cs: seq<string>)
    requires cs != [] && forall c <- cs :: 'A' !in c
    ensures SplitAnd(Join(cs)) == cs
    decreases |cs|
  {
    hide FindAnd;
    var s := Join(cs);
    if |cs| == 1 {
      FindAndSkips(cs[0], "", 0);
      assert cs[0] + "" == cs[0];
    } else {
      var rest := AND + Join(cs[1..]);
      assert s == cs[0] + rest;
      FindAndSkips(cs[0], rest, 0);
      SplitFirst(cs[0], Join(cs[1..]));
      SplitJoin(cs[1..]);
    }
  }

  // ---------- the text of one condition ----------

  /** No letter of a separator, no mark of a placeholder. */
  predicate Plain(s: string) { 'A' !in s && '$' !in s }

  lemma PlainFlags()
    ensures Plain("published=false") && Plain("published=true")
  {
  }

  lemma PlainSchemas()
    ensures Plain("schema='metax-att'") && Plain("schema='metax-ida'")
  {
  }

  lemma PlainParts(a: string, b: string)
    requires Plain(a) && Plain(b)
    ensures Plain(a + b)
  {
  }

  lemma PlainUser()
    ensures Plain("blob->>'metadata_provider_" + "user'=")
  {
    PlainParts("blob->>'metadata_provider_", "user'=");
  }

  lemma PlainOrg()
    ensures Plain("blob->>'metadata_provider_" + "org'=")
  {
    PlainParts("blob->>'metadata_provider_", "org'=");
  }

  lemma PlainColumns()
    ensures Plain("owner=") && Plain("created < ") && Plain("created >= ")
  {
  }

  lemma StemPlain(k: Kind)
    ensures Plain(k.Stem())
  {
    hide Plain;
    match k
    case UserIs =>
      PlainUser();
      assert k.Stem() == "blob->>'metadata_provider_" + "user'=";
    case OrgIs =>
      PlainOrg();
      assert k.Stem() == "blob->>'metadata_provider_" + "org'=";
    case Draft => PlainFlags();
    case Published => PlainFlags();
    case Att => PlainSchemas();
    case Ida => PlainSchemas();
    case _ => PlainColumns();
  }

  // ---------- what the reader makes of one condition ----------

  lemma FlagsRead()
    ensures ReadCondition("published=" + "false") == Some(Condition(PublishedColumn, Equal, Constant(BoolValue(false))))
    ensures ReadCondition("published=" + "true") == Some(Condition(PublishedColumn, Equal, Constant(BoolValue(true))))
  {
    hide ReadColumn, ReadOperator, SkipSpaces;
    NamesAreNames();
    FlagRead("false", false);
    FlagRead("true", true);
  }

  lemma FlagRead(text: string, value: bool)
    requires ReadOperand(text) == Some(Constant(BoolValue(value))) && text != "" && text[0] != ' '
    ensures ReadCondition("published=" + text) == Some(Condition(PublishedColumn, Equal, Constant(BoolValue(value))))
  {
    hide ReadColumn, ReadOperator, SkipSpaces, ReadOperand;
    NamesAreNames();
    assert "published=" + text == "published" + ("=" + text);
    ColumnRead("published", "=" + text);
    EqualsRead(text);
    PartsRead("published=" + text, PublishedColumn, "=" + text, Equal, text, Constant(BoolValue(value)));
  }

  lemma NamesAreNames()
    ensures IsName("published") && IsName("schema") && IsName("owner") && IsName("created")
    ensures ColumnNamed("published") == Some(PublishedColumn) && ColumnNamed("schema") == Some(SchemaColumn)
    ensures ColumnNamed("owner") == Some(OwnerColumn) && ColumnNamed("created") == Some(CreatedColumn)
    ensures |"published"| == 9 && |"schema"| == 6 && |"owner"| == 5 && |"created"| == 7
  {
  }
  lemma SchemaRead(text: string)
    requires '\'' !in text
    ensures ReadCondition("schema='" + (text + "'")) == Some(Condition(SchemaColumn, Equal, Constant(TextValue(text))))
  {
    hide ReadColumn, ReadOperator, SkipSpaces, ReadOperand;
    NamesAreNames();
    var quoted := "'" + (text + "'");
    assert "schema='" + (text + "'") == "schema" + ("=" + quoted);
    ColumnRead("schema", "=" + quoted);
    EqualsRead(quoted);
    TextRead(text);
    PartsRead("schema" + ("=" + quoted), SchemaColumn, "=" + quoted, Equal, quoted, Constant(TextValue(text)));
  }

  lemma SchemasRead()
    ensures ReadCondition("schema='metax-att'") == Some(Condition(SchemaColumn, Equal, Constant(TextValue("metax-att"))))
    ensures ReadCondition("schema='metax-ida'") == Some(Condition(SchemaColumn, Equal, Constant(TextValue("metax-ida"))))
  {
    hide ReadCondition;
    assert "schema='metax-att'" == "schema='" + ("metax-att" + "'");
    assert "schema='metax-ida'" == "schema='" + ("metax-ida" + "'");
    SchemaRead("metax-att");
    SchemaRead("metax-ida");
  }

  lemma OwnerRead(digits: string)
    requires digits != "" && AllDigits(digits)
    ensures ReadCondition("owner=" + ("$" + digits)) == Some(Condition(OwnerColumn, Equal, Argument(DigitsValue(digits))))
  {
    hide ReadColumn, ReadOperator, SkipSpaces, ReadOperand;
    NamesAreNames();
    var operand := "$" + digits;
    assert "owner=" + operand == "owner" + ("=" + operand);
    ColumnRead("owner", "=" + operand);
    EqualsRead(operand);
    ArgumentRead(digits);
    PartsRead("owner" + ("=" + operand), OwnerColumn, "=" + operand, Equal, operand, Argument(DigitsValue(digits)));
  }

  lemma CreatedRead(digits: string)
    requires digits != "" && AllDigits(digits)
    ensures ReadCondition("created < " + ("$" + digits)) == Some(Condition(CreatedColumn, Less, Argument(DigitsValue(digits))))
    ensures ReadCondition("created >= " + ("$" + digits)) == Some(Condition(CreatedColumn, AtLeast, Argument(DigitsValue(digits))))
  {
    hide ReadColumn, ReadOperator, SkipSpaces, ReadOperand;
    NamesAreNames();
    var operand := "$" + digits;
    assert "created < " + operand == "created" + (" < " + operand);
    assert "created >= " + operand == "created" + (" >= " + operand);
    ColumnRead("created", " < " + operand);
    ColumnRead("created", " >= " + operand);
    SpacedRead(operand);
    ArgumentRead(digits);
    PartsRead("created" + (" < " + operand), CreatedColumn, " < " + operand, Less, " " + operand, Argument(DigitsValue(digits)));
    PartsRead("created" + (" >= " + operand), CreatedColumn, " >= " + operand, AtLeast, " " + operand, Argument(DigitsValue(digits)));
  }

  lemma DocumentKeyRead(key: string, digits: string)
    requires IsName(key) && digits != "" && AllDigits(digits)
    ensures ReadCondition("blob->>'" + (key + ("'=" + ("$" + digits)))) == Some(Condition(DocumentText(key), Equal, Argument(DigitsValue(digits))))
  {
    hide ReadColumn, ReadOperator, SkipSpaces, ReadOperand;
    var operand := "$" + digits;
    var s := "blob" + (ARROW + (key + ("'" + ("=" + operand))));
    assert "'=" + operand == "'" + ("=" + operand);
    assert "blob->>'" == "blob" + ARROW;
    assert "blob->>'" + (key + ("'=" + operand)) == s;
    DocumentRead(key, "=" + operand);
    EqualsRead(operand);
    ArgumentRead(digits);
    PartsRead(s, DocumentText(key), "=" + operand, Equal, operand, Argument(DigitsValue(digits)));
  }

  lemma KeysAreNames()
    ensures IsName("metadata_provider_user") && IsName("metadata_provider_org")
  {
  }

  lemma DocumentKeysRead(digits: string)
    requires digits != "" && AllDigits(digits)
    ensures ReadCondition("blob->>'metadata_provider_user'=" + ("$" + digits))
         == Some(Condition(DocumentText("metadata_provider_user"), Equal, Argument(DigitsValue(digits))))
    ensures ReadCondition("blob->>'metadata_provider_org'=" + ("$" + digits))
         == Some(Condition(DocumentText("metadata_provider_org"), Equal, Argument(DigitsValue(digits))))
  {
    hide ReadCondition, IsName;
    KeysAreNames();
    DocumentKeyRead("metadata_provider_user", digits);
    DocumentKeyRead("metadata_provider_org", digits);
    UserStem();
    OrgStem();
    Regroup("metadata_provider_user", digits);
    Regroup("metadata_provider_org", digits);
  }

  lemma UserStem()
    ensures "blob->>'metadata_provider_user'=" == "blob->>'" + "metadata_provider_user" + "'="
  {
  }

  lemma OrgStem()
    ensures "blob->>'metadata_provider_org'=" == "blob->>'" + "metadata_provider_org" + "'="
  {
  }

  lemma Regroup(key: string, digits: string)
    ensures "blob->>'" + key + "'=" + ("$" + digits) == "blob->>'" + (key + ("'=" + ("$" + digits)))
  {
  }

  /** The condition a kind stands for, with the number of its placeholder. */
  function Asked(k: Kind, n: nat): Condition {
    match k
    case Draft => Condition(PublishedColumn, Equal, Constant(BoolValue(false)))
    case Published => Condition(PublishedColumn, Equal, Constant(BoolValue(true)))
    case Att => Condition(SchemaColumn, Equal, Constant(TextValue("metax-att")))
    case Ida => Condition(SchemaColumn, Equal, Constant(TextValue("metax-ida")))
    case UserIs => Condition(DocumentText("metadata_provider_user"), Equal, Argument(n))
    case OrgIs => Condition(DocumentText("metadata_provider_org"), Equal, Argument(n))
    case OwnerIs => Condition(OwnerColumn, Equal, Argument(n))
    case CreatedBefore => Condition(CreatedColumn, Less, Argument(n))
    case CreatedFrom => Condition(CreatedColumn, AtLeast, Argument(n))
  }

  /** A compiled condition is read as its column, its operator and the whole number: $1 is never taken for $10. */
  lemma ReadCompiled(k: Kind, n: nat)
    ensures ReadCondition(ConditionText(k, n)) == Some(Asked(k, n))
    ensures 'A' !in ConditionText(k, n)
  {
    hide ReadCondition;
    StemPlain(k);
    ItoaValue(n);
    match k
    case Draft => FlagsRead(); FlagTexts();
    case Published => FlagsRead(); FlagTexts();
    case Att => SchemasRead();
    case Ida => SchemasRead();
    case UserIs => DocumentKeysRead(Itoa(n));
    case OrgIs => DocumentKeysRead(Itoa(n));
    case OwnerIs => OwnerRead(Itoa(n));
    case CreatedBefore => CreatedRead(Itoa(n));
    case CreatedFrom => CreatedRead(Itoa(n));
  }

  lemma FlagTexts()
    ensures "published=false" == "published=" + "false" && "published=true" == "published=" + "true"
  {
  }

  /** The argument fits the condition. */
  predicate WellTyped(i: Item) {
    match i.kind
    case UserIs => i.arg.Some? && i.arg.value.TextArg?
    case OrgIs => i.arg.Some? && i.arg.value.TextArg?
    case OwnerIs => i.arg.Some? && i.arg.value.TextArg?
    case CreatedBefore => i.arg.Some? && i.arg.value.TimeArg?
    case CreatedFrom => i.arg.Some? && i.arg.value.TimeArg?
    case _ => i.arg.None?
  }

  predicate ItemHolds(i: Item, row: StatsRow) {
    KindHolds(i.kind, i.arg, row) == Some(true)
  }

  predicate AllHold(items: seq<Item>, row: StatsRow) {
    forall i <- items :: ItemHolds(i, row)
  }

  // ---------- the meaning of the compiled text ----------

  /** A condition reads the same after more arguments were added. */
  lemma EvalStable(c: string, args: seq<Arg>, more: seq<Arg>, row: StatsRow)
    requires EvalCondition(c, args, row).Some?
    ensures EvalCondition(c, args + more, row) == EvalCondition(c, args, row)
  {
  }

  lemma {:induction false} EvalAllAppend(cs: seq<string>, c: string, args: seq<Arg>, more: seq<Arg>, row: StatsRow)
    requires EvalAll(cs, args, row).Some? && EvalCondition(c, args + more, row).Some?
    ensures EvalAll(cs + [c], args + more, row)
         == Some(EvalAll(cs, args, row).value && EvalCondition(c, args + more, row).value)
  {
    if cs == [] {
      assert cs + [c] == [c];
      assert EvalAll([c][1..], args + more, row) == Some(true);
    } else {
      assert (cs + [c])[1..] == cs[1..] + [c];
      EvalStable(cs[0], args, more, row);
      EvalAllAppend(cs[1..], c, args, more, row);
    }
  }

  lemma CompiledValue(i: Item, n: nat, args: seq<Arg>, row: StatsRow)
    requires WellTyped(i) && (i.arg.Some? ==> 1 <= n <= |args| && args[n - 1] == i.arg.value)
    ensures EvalCondition(ConditionText(i.kind, n), args, row) == Some(ItemHolds(i, row))
    ensures 'A' !in ConditionText(i.kind, n)
  {
    hide ReadCondition, ConditionText;
    ReadCompiled(i.kind, n);
  }

  lemma {:induction false} ConditionsMean(items: seq<Item>, row: StatsRow)
    requires forall i <- items :: WellTyped(i)
    ensures forall c <- ConditionsOf(items) :: 'A' !in c
    ensures EvalAll(ConditionsOf(items), ArgsOf(items), row) == Some(AllHold(items, row))
    decreases |items|
  {
    if items != [] {
      var init, last := items[..|items| - 1], items[|items| - 1];
      ConditionsMean(init, row);
      var more := if last.arg.Some? then [last.arg.value] else [];
      var n := |ArgsOf(items)|;
      CompiledValue(last, n, ArgsOf(items), row);
      EvalAllAppend(ConditionsOf(init), ConditionText(last.kind, n), ArgsOf(init), more, row);
      LastHolds(items, row);
    }
  }

  lemma LastHolds(items: seq<Item>, row: StatsRow)
    requires items != []
    ensures AllHold(items, row) <==> AllHold(items[..|items| - 1], row) && ItemHolds(items[|items| - 1], row)
  {
    assert items == items[..|items| - 1] + [items[|items| - 1]];
  }

  /** Evaluating the text with its arguments is the conjunction of the items. */
  lemma WhereMeans(items: seq<Item>, row: StatsRow)
    requires forall i <- items :: WellTyped(i)
    ensures EvalWhere(WhereText(items), ArgsOf(items), row) == Some(AllHold(items, row))
  {
    ConditionsMean(items, row);
    if items != [] {
      var cs := ConditionsOf(items);
      SplitJoin(cs);
      assert (WHERE + Join(cs))[6..] == Join(cs);
    }
  }

  lemma AllHoldAppend(items: seq<Item>, others: seq<Item>, row: StatsRow)
    ensures AllHold(items + others, row) <==> AllHold(items, row) && AllHold(others, row)
    ensures (forall i <- items + others :: WellTyped(i)) <==> (forall i <- items :: WellTyped(i)) && (forall j <- others :: WellTyped(j))
  {
    assert forall i :: i in items + others <==> i in items || i in others;
  }

  lemma DateItemsMean(t: TimeFilter, row: StatsRow)
    ensures forall i <- DateItems(t) :: WellTyped(i)
    ensures AllHold(DateItems(t), row) <==> Selects(t, row.created)
  {
    if !t.IsZero() {
      match t.comparison
      case Eq =>
        var a, b := Item(CreatedBefore, Some(TimeArg(t.End()))), Item(CreatedFrom, Some(TimeArg(t.time)));
        assert AllHold([a, b], row) <==> ItemHolds(a, row) && ItemHolds(b, row);
      case Le => WhenMeans(true, Item(CreatedBefore, Some(TimeArg(t.End()))), row);
      case Ge => WhenMeans(true, Item(CreatedFrom, Some(TimeArg(t.time))), row);
      case Lt => WhenMeans(true, Item(CreatedBefore, Some(TimeArg(t.time))), row);
      case Gt => WhenMeans(true, Item(CreatedFrom, Some(TimeArg(t.End()))), row);
    }
  }

  lemma {:induction false} AllDateItemsMean(ts: seq<TimeFilter>, row: StatsRow)
    ensures forall i <- AllDateItems(ts) :: WellTyped(i)
    ensures AllHold(AllDateItems(ts), row) <==> forall t <- ts :: Selects(t, row.created)
    decreases |ts|
  {
    if ts != [] {
      var init, last := ts[..|ts| - 1], ts[|ts| - 1];
      AllDateItemsMean(init, row);
      DateItemsMean(last, row);
      AllHoldAppend(AllDateItems(init), DateItems(last), row);
      assert ts == init + [last];
    }
  }

  lemma WhenMeans(enabled: bool, i: Item, row: StatsRow)
    requires WellTyped(i)
    ensures forall j <- When(enabled, [i]) :: WellTyped(j)
    ensures AllHold(When(enabled, [i]), row) <==> (enabled ==> ItemHolds(i, row))
  {
  }

  lemma FlagItemsMean(f: DatasetFilter, row: StatsRow)
    ensures forall i <- FlagItems(f) :: WellTyped(i)
    ensures AllHold(FlagItems(f), row) <==>
              (f.onlyDrafts ==> !row.published) && (f.onlyPublished ==> row.published)
              && (f.onlyAtt ==> row.schema == "metax-att") && (f.onlyIda ==> row.schema == "metax-ida")
  {
    var d, p, a, i := Item(Draft, None), Item(Published, None), Item(Att, None), Item(Ida, None);
    WhenMeans(f.onlyDrafts, d, row);
    WhenMeans(f.onlyPublished, p, row);
    WhenMeans(f.onlyAtt, a, row);
    WhenMeans(f.onlyIda, i, row);
    AllHoldAppend(When(f.onlyDrafts, [d]), When(f.onlyPublished, [p]), row);
    AllHoldAppend(When(f.onlyDrafts, [d]) + When(f.onlyPublished, [p]), When(f.onlyAtt, [a]), row);
    AllHoldAppend(When(f.onlyDrafts, [d]) + When(f.onlyPublished, [p]) + When(f.onlyAtt, [a]), When(f.onlyIda, [i]), row);
  }

  lemma TextItemsMean(f: DatasetFilter, row: StatsRow)
    ensures forall i <- TextItems(f) :: WellTyped(i)
    ensures AllHold(TextItems(f), row) <==>
              (f.user != "" ==> TextMember(row.blob, "metadata_provider_user") == Some(f.user))
              && (f.organization != "" ==> TextMember(row.blob, "metadata_provider_org") == Some(f.organization))
              && (f.qvainOwner != "" ==> row.owner == f.qvainOwner)
  {
    var u, o, q := Item(UserIs, Some(TextArg(f.user))), Item(OrgIs, Some(TextArg(f.organization))), Item(OwnerIs, Some(TextArg(f.qvainOwner)));
    WhenMeans(f.user != "", u, row);
    WhenMeans(f.organization != "", o, row);
    WhenMeans(f.qvainOwner != "", q, row);
    AllHoldAppend(When(f.user != "", [u]), When(f.organization != "", [o]), row);
    AllHoldAppend(When(f.user != "", [u]) + When(f.organization != "", [o]), When(f.qvainOwner != "", [q]), row);
  }

  lemma ItemsMean(f: DatasetFilter, row: StatsRow)
    ensures forall i <- ItemsOf(f) :: WellTyped(i)
    ensures AllHold(ItemsOf(f), row) <==> Matches(f, row)
  {
    FlagItemsMean(f, row);
    TextItemsMean(f, row);
    AllDateItemsMean(f.dateCreated, row);
    AllHoldAppend(FlagItems(f), TextItems(f), row);
    AllHoldAppend(FlagItems(f) + TextItems(f), AllDateItems(f.dateCreated), row);
  }

  /** The compiled statement is accepted and selects exactly the rows that match. */
  lemma CompiledFilterMeans(f: DatasetFilter, row: StatsRow)
    ensures EvalWhere(WhereText(ItemsOf(f)), ArgsOf(ItemsOf(f)), row) == Some(Matches(f, row))
  {
    ItemsMean(f, row);
    WhereMeans(ItemsOf(f), row);
  }

  method AddFlags(wb: WhereBuilder, f: DatasetFilter)
    requires wb.Built([])
    modifies wb
    ensures wb.Built(FlagItems(f))
  {
    hide ConditionText;
    ghost var d := When(f.onlyDrafts, [Item(Draft, None)]);
    ghost var p := When(f.onlyPublished, [Item(Published, None)]);
    ghost var a := When(f.onlyAtt, [Item(Att, None)]);
    wb.MaybeAdd(f.onlyDrafts, Draft, []);
    wb.MaybeAdd(f.onlyPublished, Published, [] + d);
    wb.MaybeAdd(f.onlyAtt, Att, [] + d + p);
    wb.MaybeAdd(f.onlyIda, Ida, [] + d + p + a);
    assert [] + d == d;
  }

  method AddTexts(wb: WhereBuilder, f: DatasetFilter, ghost items: seq<Item>)
    requires wb.Built(items)
    modifies wb
    ensures wb.Built(items + TextItems(f))
  {
    hide ConditionsOf, ArgsOf;
    ghost var u := When(f.user != "", [Item(UserIs, Some(TextArg(f.user)))]);
    ghost var o := When(f.organization != "", [Item(OrgIs, Some(TextArg(f.organization)))]);
    ghost var q := When(f.qvainOwner != "", [Item(OwnerIs, Some(TextArg(f.qvainOwner)))]);
    wb.MaybeAddString(f.user, UserIs, items);
    wb.MaybeAddString(f.organization, OrgIs, items + u);
    wb.MaybeAddString(f.qvainOwner, OwnerIs, items + u + o);
    assert items + u + o + q == items + TextItems(f);
  }

  lemma AddedDate(items: seq<Item>, dates: seq<TimeFilter>, i: nat)
    requires i < |dates|
    ensures items + AllDateItems(dates[..i]) + DateItems(dates[i]) == items + AllDateItems(dates[..i + 1])
  {
    assert dates[..i + 1][..i] == dates[..i];
    assert AllDateItems(dates[..i + 1]) == AllDateItems(dates[..i]) + DateItems(dates[i]);
  }

  method AddDates(wb: WhereBuilder, dates: seq<TimeFilter>, ghost items: seq<Item>)
    requires wb.Built(items)
    modifies wb
    ensures wb.Built(items + AllDateItems(dates))
  {
    assert items + AllDateItems(dates[..0]) == items;
    for i := 0 to |dates|
      invariant wb.Built(items + AllDateItems(dates[..i]))
    {
      wb.MaybeAddTimeFilter(dates[i], items + AllDateItems(dates[..i]));
      AddedDate(items, dates, i);
    }
    assert dates[..|dates|] == dates;
  }

  /** Compiling a filter: the statement is accepted and selects exactly the rows that match. */
  method Where(f: DatasetFilter) returns (text: string, args: seq<Arg>)
    ensures text == WhereText(ItemsOf(f)) && args == ArgsOf(ItemsOf(f))
    ensures forall row :: EvalWhere(text, args, row) == Some(Matches(f, row))
  {
    var wb := new WhereBuilder();
    AddFlags(wb, f);
    AddTexts(wb, f, FlagItems(f));
    AddDates(wb, f.dateCreated, FlagItems(f) + TextItems(f));
    text, args := wb.Where(ItemsOf(f));
    forall row ensures EvalWhere(text, args, row) == Some(Matches(f, row)) {
      CompiledFilterMeans(f, row);
    }
  }

  // ---------- the text never carries user input ----------

  /** Two filters that differ only in the values the users supplied. */
  predicate SameShape(f: DatasetFilter, g: DatasetFilter) {
    && f.onlyDrafts == g.onlyDrafts && f.onlyPublished == g.onlyPublished && f.onlyAtt == g.onlyAtt && f.onlyIda == g.onlyIda
    && (f.user == "" <==> g.user == "") && (f.organization == "" <==> g.organization == "")
    && (f.qvainOwner == "" <==> g.qvainOwner == "")
    && |f.dateCreated| == |g.dateCreated|
    && forall i :: 0 <= i < |f.dateCreated| ==>
         f.dateCreated[i].comparison == g.dateCreated[i].comparison && f.dateCreated[i].IsZero() == g.dateCreated[i].IsZero()
  }

  predicate SameKinds(items: seq<Item>, others: seq<Item>) {
    |items| == |others| && forall i :: 0 <= i < |items| ==> items[i].kind == others[i].kind && (items[i].arg.Some? <==> others[i].arg.Some?)
  }

  lemma {:induction false} KindsDecideText(items: seq<Item>, others: seq<Item>)
    requires SameKinds(items, others)
    ensures ConditionsOf(items) == ConditionsOf(others)
    ensures |ArgsOf(items)| == |ArgsOf(others)|
    decreases |items|
  {
    hide ConditionText;
    if items != [] {
      KindsDecideText(items[..|items| - 1], others[..|others| - 1]);
    }
  }

  lemma {:induction false} DateKinds(ts: seq<TimeFilter>, us: seq<TimeFilter>)
    requires |ts| == |us| && forall i :: 0 <= i < |ts| ==> ts[i].comparison == us[i].comparison && ts[i].IsZero() == us[i].IsZero()
    ensures SameKinds(AllDateItems(ts), AllDateItems(us))
    decreases |ts|
  {
    if ts != [] { DateKinds(ts[..|ts| - 1], us[..|us| - 1]); }
  }

  lemma SameKindsAppend(a: seq<Item>, b: seq<Item>, c: seq<Item>, d: seq<Item>)
    requires SameKinds(a, c) && SameKinds(b, d)
    ensures SameKinds(a + b, c + d)
  {
  }

  lemma TextKinds(f: DatasetFilter, g: DatasetFilter)
    requires SameShape(f, g)
    ensures SameKinds(TextItems(f), TextItems(g))
  {
  }

  /** Filters of one shape compile to one text: what users type ends up in the arguments only. */
  lemma TextHasNoUserInput(f: DatasetFilter, g: DatasetFilter)
    requires SameShape(f, g)
    ensures WhereText(ItemsOf(f)) == WhereText(ItemsOf(g))
    ensures |ArgsOf(ItemsOf(f))| == |ArgsOf(ItemsOf(g))|
  {
    DateKinds(f.dateCreated, g.dateCreated);
    TextKinds(f, g);
    SameKindsAppend(FlagItems(f), TextItems(f), FlagItems(g), TextItems(g));
    SameKindsAppend(FlagItems(f) + TextItems(f), AllDateItems(f.dateCreated), FlagItems(g) + TextItems(g), AllDateItems(g.dateCreated));
    KindsDecideText(ItemsOf(f), ItemsOf(g));
  }
}
