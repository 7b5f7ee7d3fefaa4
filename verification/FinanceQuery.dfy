/** The WHERE clause shared by the dashboard and the detail list: conditions with numbered
    placeholders over SQL's three-valued logic (internal/companyfund/finance_query.go). */
module FinanceQuery {
  import opened Wrappers
  import opened FinanceFilter

  // ---- Rows ------------------------------------------------------------------------

  datatype Row = Row(
    id: int, occurredAt: Option<int>, completedAt: Option<int>, createdAt: int,
    channel: string, fromAccount: Option<int>, toAccount: Option<int>,
    direction: string, kind: string, originalDirection: Option<string>, currency: string,
    level1: Option<int>, level2: Option<int>, operating: Option<bool>, conversionStatus: Option<string>,
    inclusionOverride: Option<bool>, autoExcluded: bool, amount: int, usdValue: Option<int>)

  function EffectiveDate(r: Row): int {
    if r.occurredAt.Some? then r.occurredAt.value else if r.completedAt.Some? then r.completedAt.value else r.createdAt
  }

  /** A reversal counts against the direction of what it reverses. */
  function EffectiveDirection(r: Row): string {
    if r.kind == "REVERSAL" && r.originalDirection.Some? then r.originalDirection.value else r.direction
  }

  predicate SummaryIncluded(r: Row) {
    if r.inclusionOverride.Some? then r.inclusionOverride.value else !r.autoExcluded
  }

  predicate Picks(wanted: seq<int>, value: Option<int>) {
    wanted == [] || (value.Some? && value.value in wanted)
  }

  /** The inclusion rule in plain words. */
  predicate Matches(f: Filter, r: Row) {
    && (f.dateFrom.Some? ==> f.dateFrom.value <= EffectiveDate(r))
    && (f.dateTo.Some? ==> EffectiveDate(r) < f.dateTo.value)
    && (f.channels == [] || r.channel in f.channels)
    && (Picks(f.accounts, r.fromAccount) || Picks(f.accounts, r.toAccount))
    && (f.directions == [] || EffectiveDirection(r) in f.directions)
    && (f.currencies == [] || r.currency in f.currencies)
    && Picks(f.level1, r.level1)
    && Picks(f.level2, r.level2)
    && (f.operating.Some? ==> r.operating == f.operating)
    && (r.kind == "CONVERSION" ==> r.conversionStatus == Some("COMPLETE"))
    && (f.includeExcluded || SummaryIncluded(r))
  }

  // ---- SQL -------------------------------------------------------------------------

  datatype Value = Null | Number(n: int) | Chars(s: string) | Truth(b: bool)

  datatype Column =
    | OccurredAt | CompletedAt | CreatedAt | ChannelColumn | FromAccount | ToAccount | DirectionColumn | KindColumn
    | OriginalDirection | CurrencyColumn | Level1 | Level2 | Operating | ConversionStatus | Override | AutoExcluded

  datatype Expr =
    | Col(column: Column)
    | Placeholder(index: int)
    | Literal(value: Value)
    | Coalesce(left: Expr, right: Expr)
    | Case(condition: Expr, whenTrue: Expr, otherwise: Expr)
    | Not(operand: Expr)
    | Or(left: Expr, right: Expr)
    | AtLeast(left: Expr, right: Expr)
    | Below(left: Expr, right: Expr)
    | Equal(left: Expr, right: Expr)
    | Differs(left: Expr, right: Expr)
    | In(operand: Expr, list: seq<int>)

  function FromNumber(o: Option<int>): Value { if o.Some? then Number(o.value) else Null }
  function FromChars(o: Option<string>): Value { if o.Some? then Chars(o.value) else Null }
  function FromTruth(o: Option<bool>): Value { if o.Some? then Truth(o.value) else Null }

  function Field(r: Row, c: Column): Value {
    match c
    case OccurredAt => FromNumber(r.occurredAt)
    case CompletedAt => FromNumber(r.completedAt)
    case CreatedAt => Number(r.createdAt)
    case ChannelColumn => Chars(r.channel)
    case FromAccount => FromNumber(r.fromAccount)
    case ToAccount => FromNumber(r.toAccount)
    case DirectionColumn => Chars(r.direction)
    case KindColumn => Chars(r.kind)
    case OriginalDirection => FromChars(r.originalDirection)
    case CurrencyColumn => Chars(r.currency)
    case Level1 => FromNumber(r.level1)
    case Level2 => FromNumber(r.level2)
    case Operating => FromTruth(r.operating)
    case ConversionStatus => FromChars(r.conversionStatus)
    case Override => FromTruth(r.inclusionOverride)
    case AutoExcluded => Truth(r.autoExcluded)
  }

  /** The argument bound to `$index` when numbering starts at `first`. */
  function Argument(args: seq<Value>, first: int, index: int): Value {
    if 0 <= index - first < |args| then args[index - first] else Null
  }

  function EqualTo(a: Value, b: Value): Value {
    if a == Null || b == Null then Null else Truth(a == b)
  }

  function Or3(a: Value, b: Value): Value {
    if a == Truth(true) || b == Truth(true) then Truth(true)
    else if a == Truth(false) && b == Truth(false) then Truth(false)
    else Null
  }

  function Not3(a: Value): Value {
    if a.Truth? then Truth(!a.b) else Null
  }

  /** The truth tables: unknown unless one side decides, and negation keeps unknown. */
  lemma ThreeValued(a: Value, b: Value)
    ensures Or3(a, b) == Truth(true) <==> a == Truth(true) || b == Truth(true)
    ensures Or3(a, b) == Truth(false) <==> a == Truth(false) && b == Truth(false)
    ensures Or3(a, b) in {Truth(true), Truth(false), Null}
    ensures Not3(Truth(true)) == Truth(false) && Not3(Truth(false)) == Truth(true) && Not3(Null) == Null
    ensures EqualTo(a, b) == Null <==> a == Null || b == Null
    ensures a != Null && b != Null ==> (EqualTo(a, b) == Truth(true) <==> a == b) && EqualTo(a, b).Truth?
  {
  }

  /** `x IN (list)` is `x = list[0] OR x = list[1] OR ...`. */
  function In3(x: Value, args: seq<Value>, first: int, list: seq<int>): Value {
    if list == [] then Truth(false)
    else Or3(In3(x, args, first, list[..|list| - 1]), EqualTo(x, Argument(args, first, list[|list| - 1])))
  }

  function Eval(e: Expr, r: Row, args: seq<Value>, first: int): Value {
    match e
    case Col(c) => Field(r, c)
    case Placeholder(i) => Argument(args, first, i)
    case Literal(v) => v
    case Coalesce(a, b) => var x := Eval(a, r, args, first); if x != Null then x else Eval(b, r, args, first)
    case Case(c, a, b) =>
      if Eval(c, r, args, first) == Truth(true) then Eval(a, r, args, first) else Eval(b, r, args, first)
    case Not(a) => Not3(Eval(a, r, args, first))
    case Or(a, b) => Or3(Eval(a, r, args, first), Eval(b, r, args, first))
    case AtLeast(a, b) =>
      var x, y := Eval(a, r, args, first), Eval(b, r, args, first);
      if x.Number? && y.Number? then Truth(x.n >= y.n) else Null
    case Below(a, b) =>
      var x, y := Eval(a, r, args, first), Eval(b, r, args, first);
      if x.Number? && y.Number? then Truth(x.n < y.n) else Null
    case Equal(a, b) => EqualTo(Eval(a, r, args, first), Eval(b, r, args, first))
    case Differs(a, b) => Not3(EqualTo(Eval(a, r, args, first), Eval(b, r, args, first)))
    case In(a, list) => In3(Eval(a, r, args, first), args, first, list)
  }

  /** Conditions joined by AND: the row is selected when every one of them is TRUE. */
  predicate Selects(conditions: seq<Expr>, r: Row, args: seq<Value>, first: int) {
    conditions == []
    || (Selects(conditions[..|conditions| - 1], r, args, first)
        && Eval(conditions[|conditions| - 1], r, args, first) == Truth(true))
  }

  /** Placeholders in the order they are written. */
  function Written(e: Expr): seq<int> {
    match e
    case Col(_) => []
    case Placeholder(i) => [i]
    case Literal(_) => []
    case Coalesce(a, b) => Written(a) + Written(b)
    case Case(c, a, b) => Written(c) + Written(a) + Written(b)
    case Not(a) => Written(a)
    case Or(a, b) => Written(a) + Written(b)
    case AtLeast(a, b) => Written(a) + Written(b)
    case Below(a, b) => Written(a) + Written(b)
    case Equal(a, b) => Written(a) + Written(b)
    case Differs(a, b) => Written(a) + Written(b)
    case In(a, list) => Written(a) + list
  }

  function WrittenAll(conditions: seq<Expr>): seq<int> {
    if conditions == [] then [] else WrittenAll(conditions[..|conditions| - 1]) + Written(conditions[|conditions| - 1])
  }

  function Block(first: int, n: nat): seq<int> {
    seq(n, i => first + i)
  }

  ghost predicate Within(list: seq<int>, lo: int, hi: int) {
    forall k :: 0 <= k < |list| ==> lo <= list[k] < hi
  }

  lemma WithinParts(a: seq<int>, b: seq<int>, lo: int, hi: int)
    requires Within(a + b, lo, hi)
    ensures Within(a, lo, hi) && Within(b, lo, hi)
  {
    forall k | 0 <= k < |a| ensures lo <= a[k] < hi { assert (a + b)[k] == a[k]; }
    forall k | 0 <= k < |b| ensures lo <= b[k] < hi { assert (a + b)[|a| + k] == b[k]; }
  }

  lemma {:induction false} InStable(x: Value, args: seq<Value>, more: seq<Value>, first: int, list: seq<int>)
    requires Within(list, first, first + |args|)
    ensures In3(x, args + more, first, list) == In3(x, args, first, list)
  {
    if list != [] {
      InStable(x, args, more, first, list[..|list| - 1]);
    }
  }

  /** An expression does not notice arguments beyond the ones it mentions. */
  lemma {:induction false} EvalStable(e: Expr, r: Row, args: seq<Value>, more: seq<Value>, first: int)
    requires Within(Written(e), first, first + |args|)
    ensures Eval(e, r, args + more, first) == Eval(e, r, args, first)
  {
    match e
    case Col(_) =>
    case Literal(_) =>
    case Placeholder(i) => assert Written(e)[0] == i;
    case Not(a) => EvalStable(a, r, args, more, first);
    case Coalesce(_, _) | Or(_, _) | AtLeast(_, _) | Below(_, _) | Equal(_, _) | Differs(_, _) =>
      WithinParts(Written(e.left), Written(e.right), first, first + |args|);
      EvalStable(e.left, r, args, more, first);
      EvalStable(e.right, r, args, more, first);
    case Case(c, a, b) =>
      WithinParts(Written(c) + Written(a), Written(b), first, first + |args|);
      WithinParts(Written(c), Written(a), first, first + |args|);
      EvalStable(c, r, args, more, first);
      EvalStable(a, r, args, more, first);
      EvalStable(b, r, args, more, first);
    case In(a, list) =>
      WithinParts(Written(a), list, first, first + |args|);
      EvalStable(a, r, args, more, first);
      InStable(Eval(a, r, args, first), args, more, first, list);
  }

  lemma {:induction false} SelectsStable(conditions: seq<Expr>, r: Row, args: seq<Value>, more: seq<Value>, first: int)
    requires Within(WrittenAll(conditions), first, first + |args|)
    ensures Selects(conditions, r, args + more, first) <==> Selects(conditions, r, args, first)
  {
    hide Eval;
    if conditions != [] {
      var front, last := conditions[..|conditions| - 1], conditions[|conditions| - 1];
      WithinParts(WrittenAll(front), Written(last), first, first + |args|);
      SelectsStable(front, r, args, more, first);
      EvalStable(last, r, args, more, first);
    }
  }

  // ---- The builder -----------------------------------------------------------------

  const DATE := Coalesce(Col(OccurredAt), Coalesce(Col(CompletedAt), Col(CreatedAt)))
  const SUMMARY_INCLUDED := Coalesce(Col(Override), Not(Col(AutoExcluded)))
  const EFFECTIVE_DIRECTION :=
    Case(Equal(Col(KindColumn), Literal(Chars("REVERSAL"))), Coalesce(Col(OriginalDirection), Col(DirectionColumn)),
         Col(DirectionColumn))
  const CONVERSION_COMPLETE :=
    Or(Differs(Col(KindColumn), Literal(Chars("CONVERSION"))), Equal(Col(ConversionStatus), Literal(Chars("COMPLETE"))))

  ghost predicate NoNulls(values: seq<Value>) {
    forall i :: 0 <= i < |values| ==> values[i] != Null
  }

  /** A list of consecutive placeholders tests membership in the values bound to them. */
  lemma {:induction false} InBlock(x: Value, args: seq<Value>, values: seq<Value>, first: int)
    requires NoNulls(values)
    ensures In3(x, args + values, first, Block(first + |args|, |values|)) == Truth(true) <==> x in values
  {
    if values == [] {
    } else {
      var front, last := values[..|values| - 1], values[|values| - 1];
      var start := first + |args|;
      var list := Block(start, |values|);
      InBlock(x, args, front, first);
      assert list[..|list| - 1] == Block(start, |front|);
      InStable(x, args + front, [last], first, Block(start, |front|));
      assert args + front + [last] == args + values;
      assert Argument(args + values, first, list[|list| - 1]) == last;
      assert values == front + [last];
    }
  }

  lemma InMeans(column: Expr, r: Row, had: seq<Value>, values: seq<Value>, first: int)
    requires Written(column) == [] && NoNulls(values)
    ensures Eval(In(column, Block(first + |had|, |values|)), r, had + values, first) == Truth(true)
            <==> Eval(column, r, [], first) in values
  {
    hide In3, NoNulls;
    EvalStable(column, r, [], had + values, first);
    assert [] + (had + values) == had + values;
    InBlock(Eval(column, r, [], first), had, values, first);
  }

  class WhereBuilder {
    const first: int
    var conditions: seq<Expr>
    var args: seq<Value>
    var next: int

    /** Placeholders appear once each, in order, without gaps. */
    ghost predicate Valid()
      reads this
    {
      next == first + |args| && WrittenAll(conditions) == Block(first, |args|)
    }

    ghost predicate Admits(r: Row)
      reads this
    {
      Selects(conditions, r, args, first)
    }

    constructor (first: int)
      ensures Valid() && this.first == first && conditions == [] && args == []
    {
      this.first, conditions, args, next := first, [], [], first;
    }

    method AppendArgument(value: Value) returns (placeholder: int)
      modifies this`args, this`next
      ensures placeholder == old(next) && next == old(next) + 1 && args == old(args) + [value]
    {
      placeholder := next;
      next := next + 1;
      args := args + [value];
    }

    method AppendArguments(values: seq<Value>) returns (placeholders: seq<int>)
      modifies this`args, this`next
      ensures placeholders == Block(old(next), |values|)
      ensures next == old(next) + |values| && args == old(args) + values
    {
      placeholders := [];
      for i := 0 to |values|
        invariant placeholders == Block(old(next), i)
        invariant next == old(next) + i && args == old(args) + values[..i]
      {
        var p := AppendArgument(values[i]);
        placeholders := placeholders + [p];
        assert values[..i + 1] == values[..i] + [values[i]];
      }
      assert values[..|values|] == values;
    }

    /** The clause grows by one condition over the arguments appended for it. */
    ghost method Extended(before: seq<Expr>, had: seq<Value>, condition: Expr, values: seq<Value>)
      requires WrittenAll(before) == Block(first, |had|)
      requires conditions == before + [condition] && args == had + values && next == first + |args|
      requires Written(condition) == Block(first + |had|, |values|)
      ensures Valid()
      ensures forall r :: Admits(r) <==>
                          Selects(before, r, had, first) && Eval(condition, r, args, first) == Truth(true)
    {
      hide Eval;
      assert conditions[..|before|] == before;
      assert Block(first, |had|) + Block(first + |had|, |values|) == Block(first, |args|);
      forall r
        ensures Admits(r) <==> Selects(before, r, had, first) && Eval(condition, r, args, first) == Truth(true)
      {
        SelectsStable(before, r, had, values, first);
      }
    }

    method AppendCondition(condition: Expr)
      requires Valid() && Written(condition) == []
      modifies this`conditions
      ensures Valid()
      ensures forall r :: Admits(r) <==> old(Admits(r)) && Eval(condition, r, [], first) == Truth(true)
    {
      hide Eval, Selects;
      conditions := conditions + [condition];
      assert Block(first + |args|, 0) == [];
      assert args == args + [];
      Extended(old(conditions), args, condition, []);
      forall r
        ensures Eval(condition, r, args, first) == Eval(condition, r, [], first)
      {
        EvalStable(condition, r, [], args, first);
        assert [] + args == args;
      }
    }

    method AppendIn(column: Expr, values: seq<Value>)
      requires Valid() && Written(column) == [] && NoNulls(values)
      modifies this
      ensures Valid()
      ensures forall r :: Admits(r) <==> old(Admits(r)) && Eval(column, r, [], first) in values
    {
      hide Selects, Eval, NoNulls;
      var placeholders := AppendArguments(values);
      conditions := conditions + [In(column, placeholders)];
      Extended(old(conditions), old(args), In(column, placeholders), values);
      forall r
        ensures Eval(In(column, placeholders), r, args, first) == Truth(true) <==> Eval(column, r, [], first) in values
      {
        InMeans(column, r, old(args), values, first);
      }
    }

    method AppendCompared(op: Comparison, left: Expr, value: Value)
      requires Valid() && Written(left) == [] && value != Null
      modifies this
      ensures Valid()
      ensures forall r :: Admits(r) <==> old(Admits(r)) && Satisfies(op, Eval(left, r, [], first), value)
    {
      hide Selects, Eval;
      var p := AppendArgument(value);
      conditions := conditions + [Compared(op, left, Placeholder(p))];
      assert Written(Compared(op, left, Placeholder(p))) == Block(first + old(|args|), 1);
      Extended(old(conditions), old(args), Compared(op, left, Placeholder(p)), [value]);
      forall r
        ensures Eval(Compared(op, left, Placeholder(p)), r, args, first) == Truth(true)
                <==> Satisfies(op, Eval(left, r, [], first), value)
      {
        ComparedMeans(op, left, r, old(args), value, first);
      }
    }

    /** The account filter binds every ID twice: once for the payer, once for the payee. */
    method AppendEither(one: Expr, other: Expr, values: seq<Value>)
      requires Valid() && Written(one) == [] && Written(other) == [] && NoNulls(values)
      modifies this
      ensures Valid()
      ensures forall r :: Admits(r) <==>
                old(Admits(r)) && (Eval(one, r, [], first) in values || Eval(other, r, [], first) in values)
    {
      hide Selects, Eval, NoNulls;
      var ones := AppendArguments(values);
      var others := AppendArguments(values);
      var condition := Or(In(one, ones), In(other, others));
      conditions := conditions + [condition];
      assert args == old(args) + (values + values);
      assert Written(condition) == Block(first + |old(args)|, |values + values|);
      Extended(old(conditions), old(args), condition, values + values);
      forall r
        ensures Eval(condition, r, args, first) == Truth(true)
                <==> Eval(one, r, [], first) in values || Eval(other, r, [], first) in values
      {
        EitherMeans(one, other, r, old(args), values, first);
      }
    }
  }

  datatype Comparison = Ge | Lt | Eq

  function Compared(op: Comparison, left: Expr, right: Expr): Expr {
    match op case Ge => AtLeast(left, right) case Lt => Below(left, right) case Eq => Equal(left, right)
  }

  predicate Satisfies(op: Comparison, x: Value, y: Value) {
    match op
    case Ge => x.Number? && y.Number? && x.n >= y.n
    case Lt => x.Number? && y.Number? && x.n < y.n
    case Eq => x == y && x != Null
  }

  lemma ComparedMeans(op: Comparison, left: Expr, r: Row, had: seq<Value>, value: Value, first: int)
    requires Written(left) == [] && value != Null
    ensures Eval(Compared(op, left, Placeholder(first + |had|)), r, had + [value], first) == Truth(true)
            <==> Satisfies(op, Eval(left, r, [], first), value)
  {
    hide Written, Field;
    EvalStable(left, r, [], had + [value], first);
    assert [] + (had + [value]) == had + [value];
  }

  lemma EitherMeans(one: Expr, other: Expr, r: Row, had: seq<Value>, values: seq<Value>, first: int)
    requires Written(one) == [] && Written(other) == [] && NoNulls(values)
    ensures var condition := Or(In(one, Block(first + |had|, |values|)),
                                In(other, Block(first + |had| + |values|, |values|)));
            Eval(condition, r, had + values + values, first) == Truth(true)
            <==> Eval(one, r, [], first) in values || Eval(other, r, [], first) in values
  {
    hide In3, NoNulls, Written;
    var ones := In(one, Block(first + |had|, |values|));
    assert Written(ones) == [] + Block(first + |had|, |values|) by {
      UnfoldWritten(one, Block(first + |had|, |values|));
    }
    EvalStable(ones, r, had + values, values, first);
    InMeans(one, r, had, values, first);
    InMeans(other, r, had + values, values, first);
  }

  lemma UnfoldWritten(e: Expr, list: seq<int>)
    ensures Written(In(e, list)) == Written(e) + list
  {
  }

  // ---- buildFinanceTransactionWhere --------------------------------------------------

  function Numbers(s: seq<int>): (v: seq<Value>)
    ensures |v| == |s| && NoNulls(v)
    ensures forall i :: 0 <= i < |s| ==> v[i] == Number(s[i])
  {
    seq(|s|, i requires 0 <= i < |s| => Number(s[i]))
  }

  function Texts(s: seq<string>): (v: seq<Value>)
    ensures |v| == |s| && NoNulls(v)
    ensures forall i :: 0 <= i < |s| ==> v[i] == Chars(s[i])
  {
    seq(|s|, i requires 0 <= i < |s| => Chars(s[i]))
  }

  lemma InNumbers(s: seq<int>, o: Option<int>)
    ensures FromNumber(o) in Numbers(s) <==> o.Some? && o.value in s
  {
    if o.Some? && o.value in s {
      var i :| 0 <= i < |s| && s[i] == o.value;
      assert Numbers(s)[i] == FromNumber(o);
    }
  }

  lemma InTexts(s: seq<string>, t: string)
    ensures Chars(t) in Texts(s) <==> t in s
  {
    if t in s {
      var i :| 0 <= i < |s| && s[i] == t;
      assert Texts(s)[i] == Chars(t);
    }
  }

  lemma Unfold(e: Expr, r: Row, args: seq<Value>, first: int)
    ensures e.Col? ==> Eval(e, r, args, first) == Field(r, e.column)
    ensures e.Literal? ==> Eval(e, r, args, first) == e.value
    ensures e.Coalesce? ==> Eval(e, r, args, first)
                            == var x := Eval(e.left, r, args, first);
                               if x != Null then x else Eval(e.right, r, args, first)
    ensures e.Case? ==> Eval(e, r, args, first)
                        == if Eval(e.condition, r, args, first) == Truth(true)
                           then Eval(e.whenTrue, r, args, first) else Eval(e.otherwise, r, args, first)
    ensures e.Not? ==> Eval(e, r, args, first) == Not3(Eval(e.operand, r, args, first))
    ensures e.Or? ==> Eval(e, r, args, first) == Or3(Eval(e.left, r, args, first), Eval(e.right, r, args, first))
    ensures e.Equal? ==> Eval(e, r, args, first) == EqualTo(Eval(e.left, r, args, first), Eval(e.right, r, args, first))
    ensures e.Differs? ==> Eval(e, r, args, first)
                           == Not3(EqualTo(Eval(e.left, r, args, first), Eval(e.right, r, args, first)))
  {
  }

  lemma DateMeans(r: Row, first: int)
    ensures Eval(DATE, r, [], first) == Number(EffectiveDate(r))
  {
    hide Eval;
    Unfold(DATE, r, [], first);
    Unfold(DATE.left, r, [], first);
    Unfold(DATE.right, r, [], first);
    Unfold(DATE.right.left, r, [], first);
    Unfold(DATE.right.right, r, [], first);
  }

  lemma DirectionMeans(r: Row, first: int)
    ensures Eval(EFFECTIVE_DIRECTION, r, [], first) == Chars(EffectiveDirection(r))
  {
    hide Eval;
    Unfold(EFFECTIVE_DIRECTION, r, [], first);
    Unfold(EFFECTIVE_DIRECTION.condition, r, [], first);
    Unfold(EFFECTIVE_DIRECTION.condition.left, r, [], first);
    Unfold(EFFECTIVE_DIRECTION.condition.right, r, [], first);
    Unfold(EFFECTIVE_DIRECTION.whenTrue, r, [], first);
    Unfold(EFFECTIVE_DIRECTION.whenTrue.left, r, [], first);
    Unfold(EFFECTIVE_DIRECTION.otherwise, r, [], first);
  }

  lemma InclusionMeans(r: Row, first: int)
    ensures Eval(SUMMARY_INCLUDED, r, [], first) == Truth(SummaryIncluded(r))
  {
    hide Eval;
    Unfold(SUMMARY_INCLUDED, r, [], first);
    Unfold(SUMMARY_INCLUDED.left, r, [], first);
    Unfold(SUMMARY_INCLUDED.right, r, [], first);
    Unfold(SUMMARY_INCLUDED.right.operand, r, [], first);
  }

  lemma ConversionMeans(r: Row, first: int)
    ensures Eval(CONVERSION_COMPLETE, r, [], first) == Truth(true)
            <==> (r.kind == "CONVERSION" ==> r.conversionStatus == Some("COMPLETE"))
  {
    hide Eval;
    Unfold(CONVERSION_COMPLETE, r, [], first);
    Unfold(CONVERSION_COMPLETE.left, r, [], first);
    Unfold(CONVERSION_COMPLETE.left.left, r, [], first);
    Unfold(CONVERSION_COMPLETE.left.right, r, [], first);
    Unfold(CONVERSION_COMPLETE.right, r, [], first);
    Unfold(CONVERSION_COMPLETE.right.left, r, [], first);
    Unfold(CONVERSION_COMPLETE.right.right, r, [], first);
  }

  /** The conditions one by one, in the order they are appended. */
  predicate Clause(f: Filter, r: Row, k: nat) {
    if k == 1 then f.dateFrom.Some? ==> f.dateFrom.value <= EffectiveDate(r)
    else if k == 2 then f.dateTo.Some? ==> EffectiveDate(r) < f.dateTo.value
    else if k == 3 then f.channels == [] || r.channel in f.channels
    else if k == 4 then Picks(f.accounts, r.fromAccount) || Picks(f.accounts, r.toAccount)
    else if k == 5 then f.directions == [] || EffectiveDirection(r) in f.directions
    else if k == 6 then f.currencies == [] || r.currency in f.currencies
    else if k == 7 then Picks(f.level1, r.level1)
    else if k == 8 then Picks(f.level2, r.level2)
    else if k == 9 then f.operating.Some? ==> r.operating == f.operating
    else if k == 10 then r.kind == "CONVERSION" ==> r.conversionStatus == Some("COMPLETE")
    else f.includeExcluded || SummaryIncluded(r)
  }

  predicate Upto(f: Filter, r: Row, k: nat) {
    k == 0 || (Upto(f, r, k - 1) && Clause(f, r, k))
  }

  lemma AllClauses(f: Filter, r: Row)
    ensures Upto(f, r, 11) <==> Matches(f, r)
  {
    assert Upto(f, r, 9) <==> Upto(f, r, 8) && Clause(f, r, 9);
    assert Upto(f, r, 7) <==> Upto(f, r, 6) && Clause(f, r, 7);
    assert Upto(f, r, 5) <==> Upto(f, r, 4) && Clause(f, r, 5);
    assert Upto(f, r, 3) <==> Upto(f, r, 2) && Clause(f, r, 3);
    assert Upto(f, r, 1) <==> Clause(f, r, 1);
  }

  method AppendTimes(b: WhereBuilder, f: Filter)
    requires b.Valid() && forall r :: b.Admits(r) <==> Upto(f, r, 0)
    modifies b
    ensures b.Valid() && forall r :: b.Admits(r) <==> Upto(f, r, 2)
  {
    hide Eval, Selects, Upto, WrittenAll, NoNulls, Written;
    Unwritten();
    if f.dateFrom.Some? { b.AppendCompared(Ge, DATE, Number(f.dateFrom.value)); }
    forall r ensures b.Admits(r) <==> Upto(f, r, 1) {
      UptoStep(f, r, 1);
      DateMeans(r, b.first);
    }
    if f.dateTo.Some? { b.AppendCompared(Lt, DATE, Number(f.dateTo.value)); }
    forall r ensures b.Admits(r) <==> Upto(f, r, 2) {
      UptoStep(f, r, 2);
      DateMeans(r, b.first);
    }
  }

  method AppendParties(b: WhereBuilder, f: Filter)
    requires b.Valid() && forall r :: b.Admits(r) <==> Upto(f, r, 2)
    modifies b
    ensures b.Valid() && forall r :: b.Admits(r) <==> Upto(f, r, 4)
  {
    hide Eval, Selects, Upto, WrittenAll, NoNulls, Written;
    Unwritten();
    if f.channels != [] { b.AppendIn(Col(ChannelColumn), Texts(f.channels)); }
    forall r ensures b.Admits(r) <==> Upto(f, r, 3) {
      UptoStep(f, r, 3);
      InTexts(f.channels, r.channel);
      ColumnMeans(r, ChannelColumn, b.first);
    }
    if f.accounts != [] { b.AppendEither(Col(FromAccount), Col(ToAccount), Numbers(f.accounts)); }
    forall r ensures b.Admits(r) <==> Upto(f, r, 4) {
      UptoStep(f, r, 4);
      InNumbers(f.accounts, r.fromAccount);
      InNumbers(f.accounts, r.toAccount);
      ColumnMeans(r, FromAccount, b.first);
      ColumnMeans(r, ToAccount, b.first);
    }
  }

  method AppendKinds(b: WhereBuilder, f: Filter)
    requires b.Valid() && forall r :: b.Admits(r) <==> Upto(f, r, 4)
    modifies b
    ensures b.Valid() && forall r :: b.Admits(r) <==> Upto(f, r, 6)
  {
    hide Eval, Selects, Upto, WrittenAll, NoNulls, Written;
    Unwritten();
    if f.directions != [] { b.AppendIn(EFFECTIVE_DIRECTION, Texts(f.directions)); }
    forall r ensures b.Admits(r) <==> Upto(f, r, 5) {
      UptoStep(f, r, 5);
      DirectionMeans(r, b.first);
      InTexts(f.directions, EffectiveDirection(r));
    }
    if f.currencies != [] { b.AppendIn(Col(CurrencyColumn), Texts(f.currencies)); }
    forall r ensures b.Admits(r) <==> Upto(f, r, 6) {
      UptoStep(f, r, 6);
      InTexts(f.currencies, r.currency);
      ColumnMeans(r, CurrencyColumn, b.first);
    }
  }

  method AppendCategories(b: WhereBuilder, f: Filter)
    requires b.Valid() && forall r :: b.Admits(r) <==> Upto(f, r, 6)
    modifies b
    ensures b.Valid() && forall r :: b.Admits(r) <==> Upto(f, r, 8)
  {
    hide Eval, Selects, Upto, WrittenAll, NoNulls, Written;
    Unwritten();
    if f.level1 != [] { b.AppendIn(Col(Level1), Numbers(f.level1)); }
    forall r ensures b.Admits(r) <==> Upto(f, r, 7) {
      UptoStep(f, r, 7);
      InNumbers(f.level1, r.level1);
      ColumnMeans(r, Level1, b.first);
    }
    if f.level2 != [] { b.AppendIn(Col(Level2), Numbers(f.level2)); }
    forall r ensures b.Admits(r) <==> Upto(f, r, 8) {
      UptoStep(f, r, 8);
      InNumbers(f.level2, r.level2);
      ColumnMeans(r, Level2, b.first);
    }
  }

  method AppendInclusion(b: WhereBuilder, f: Filter)
    requires b.Valid() && forall r :: b.Admits(r) <==> Upto(f, r, 8)
    modifies b
    ensures b.Valid() && forall r :: b.Admits(r) <==> Upto(f, r, 11)
  {
    hide Eval, Selects, Upto, WrittenAll, NoNulls, Written;
    Unwritten();
    if f.operating.Some? { b.AppendCompared(Eq, Col(Operating), Truth(f.operating.value)); }
    forall r ensures b.Admits(r) <==> Upto(f, r, 9) {
      UptoStep(f, r, 9);
      ColumnMeans(r, Operating, b.first);
    }
    b.AppendCondition(CONVERSION_COMPLETE);
    forall r ensures b.Admits(r) <==> Upto(f, r, 10) {
      UptoStep(f, r, 10);
      ConversionMeans(r, b.first);
    }
    if !f.includeExcluded { b.AppendCondition(SUMMARY_INCLUDED); }
    forall r ensures b.Admits(r) <==> Upto(f, r, 11) {
      UptoStep(f, r, 11);
      InclusionMeans(r, b.first);
    }
  }

  /** For every filter and first placeholder: exactly the rows the plain rule picks are
      selected, and the placeholders are the consecutive block up to `next`, each used once
      and in argument order. */
  method BuildTransactionWhere(f: Filter, first: int) returns (conditions: seq<Expr>, args: seq<Value>, next: int)
    ensures next == first + |args|
    ensures WrittenAll(conditions) == Block(first, next - first)
    ensures forall r :: Selects(conditions, r, args, first) <==> Matches(f, r)
  {
    hide Eval, Selects, Upto, Matches, WrittenAll, NoNulls, Written, Clause;
    var b := new WhereBuilder(first);
    forall r ensures b.Admits(r) <==> Upto(f, r, 0) { Start(f, r, first); }
    AppendTimes(b, f);
    AppendParties(b, f);
    AppendKinds(b, f);
    AppendCategories(b, f);
    AppendInclusion(b, f);
    forall r ensures b.Admits(r) <==> Matches(f, r) { AllClauses(f, r); }
    return b.conditions, b.args, b.next;
  }

  lemma Start(f: Filter, r: Row, first: int)
    ensures Selects([], r, [], first) <==> Upto(f, r, 0)
  {
  }

  lemma UptoStep(f: Filter, r: Row, k: nat)
    requires k > 0
    ensures Upto(f, r, k) <==> Upto(f, r, k - 1) && Clause(f, r, k)
  {
  }

  lemma ColumnMeans(r: Row, c: Column, first: int)
    ensures Eval(Col(c), r, [], first) == Field(r, c)
  {
  }

  lemma Unwritten()
    ensures Written(DATE) == [] && Written(EFFECTIVE_DIRECTION) == []
    ensures Written(SUMMARY_INCLUDED) == [] && Written(CONVERSION_COMPLETE) == []
    ensures forall c :: Written(Col(c)) == []
  {
  }
}
