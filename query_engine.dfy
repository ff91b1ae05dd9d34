// The query engine: filters combined into one predicate, sorting by a named
// column, paging, and a registry of saved query templates.
// Building one filter's predicate goes through reflection over the row type
// and expression trees; here it is a parameter `build` that gives the
// predicate, or `None` when the field is unknown or the predicate cannot be
// built. Likewise `column` gives the key of a named sort column.

module QueryEngines {
  import opened Common
  import opened Text
  import opened Linq

  datatype FilterOperator =
    | EqualsOp | NotEquals | ContainsOp | StartsWithOp | EndsWithOp
    | GreaterThan | GreaterThanOrEqual | LessThan | LessThanOrEqual
    | Between | In | NotIn | IsNull | IsNotNull

  datatype FilterLogic = And | Or

  datatype FilterDefinition = FilterDefinition(
    field: string,
    op: FilterOperator,
    value: Option<string>,
    value2: Option<string>,
    logic: FilterLogic)

  /** A combined filter: built predicates joined left to right. */
  datatype Expr<!T> = Atom(p: T -> bool) | AndAlso(left: Expr<T>, right: Expr<T>) | OrElse(left: Expr<T>, right: Expr<T>)

  function Eval<T(!new)>(e: Expr<T>, row: T): bool {
    match e
    case Atom(p) => p(row)
    case AndAlso(l, r) => Eval(l, row) && Eval(r, row)
    case OrElse(l, r) => Eval(l, row) || Eval(r, row)
  }

  /** One step of the fold: a filter that cannot be built is skipped; the
    * first one built starts the expression; each later one is joined to what
    * came before by its own logic. */
  function Combine<T(!new)>(acc: Option<Expr<T>>, f: FilterDefinition, build: FilterDefinition -> Option<T -> bool>): Option<Expr<T>> {
    match build(f)
    case None => acc
    case Some(p) =>
      if acc.None? then Some(Atom(p))
      else if f.logic == And then Some(AndAlso(acc.value, Atom(p)))
      else Some(OrElse(acc.value, Atom(p)))
  }

  /** The combined expression of a filter list: a left fold. */
  function Combined<T(!new)>(filters: seq<FilterDefinition>, build: FilterDefinition -> Option<T -> bool>): Option<Expr<T>> {
    if filters == [] then None
    else Combine(Combined(filters[..|filters| - 1], build), filters[|filters| - 1], build)
  }

  /** Whether a row passes a filter list as a whole; with nothing built, every row does. */
  function Passes<T(!new)>(filters: seq<FilterDefinition>, build: FilterDefinition -> Option<T -> bool>, row: T): bool {
    var c := Combined(filters, build);
    c.None? || Eval(c.value, row)
  }

  /** `ApplyFilters`, as a value: the rows that pass. */
  function Filtered<T(!new)>(rows: seq<T>, filters: seq<FilterDefinition>, build: FilterDefinition -> Option<T -> bool>): seq<T> {
    var c := Combined(filters, build);
    if c.None? then rows else Where(rows, row => Eval(c.value, row))
  }

  /** `ApplyFilters`: folds the filters into one expression in a loop, then
    * keeps the rows it accepts; an empty list, or one where nothing could be
    * built, returns the rows as they are. */
  method ApplyFilters<T(!new)>(rows: seq<T>, filters: seq<FilterDefinition>, build: FilterDefinition -> Option<T -> bool>)
    returns (r: seq<T>)
    ensures r == Filtered(rows, filters, build)
    ensures forall x :: x in r <==> x in rows && Passes(filters, build, x)
    ensures filters == [] ==> r == rows
  {
    if filters == [] {
      return rows;
    }
    var combined: Option<Expr<T>> := None;
    var i := 0;
    while i < |filters|
      invariant 0 <= i <= |filters|
      invariant combined == Combined(filters[..i], build)
    {
      assert filters[..i + 1][..i] == filters[..i];
      var built := build(filters[i]);
      if built.Some? {
        if combined.None? {
          combined := Some(Atom(built.value));
        } else if filters[i].logic == And {
          combined := Some(AndAlso(combined.value, Atom(built.value)));
        } else {
          combined := Some(OrElse(combined.value, Atom(built.value)));
        }
      }
      i := i + 1;
    }
    assert filters[..|filters|] == filters;
    if combined.None? {
      r := rows;
    } else {
      var c := combined.value;
      r := Where(rows, row => Eval(c, row));
    }
  }

  /** Filters that cannot be built leave the rows unchanged. */
  lemma {:induction false} NothingBuiltKeepsAll<T(!new)>(filters: seq<FilterDefinition>, build: FilterDefinition -> Option<T -> bool>)
    requires forall i :: 0 <= i < |filters| ==> build(filters[i]).None?
    ensures Combined(filters, build).None?
    decreases |filters|
  {
    if filters != [] {
      NothingBuiltKeepsAll(filters[..|filters| - 1], build);
    }
  }

  /** With every filter built and joined by And (the first one's logic does
    * not matter), a row passes exactly when it passes every filter. */
  lemma {:induction false} AllAndIsConjunction<T(!new)>(filters: seq<FilterDefinition>, build: FilterDefinition -> Option<T -> bool>, row: T)
    requires forall i :: 0 <= i < |filters| ==> build(filters[i]).Some?
    requires forall i :: 1 <= i < |filters| ==> filters[i].logic == And
    ensures Passes(filters, build, row) <==> forall i :: 0 <= i < |filters| ==> build(filters[i]).value(row)
    decreases |filters|
  {
    if filters != [] {
      var init := filters[..|filters| - 1];
      var last := |filters| - 1;
      var p := build(filters[last]).value;
      AllAndIsConjunction(init, build, row);
      assert forall i :: 0 <= i < |init| ==> init[i] == filters[i];
      if init == [] {
        assert Combined(filters, build) == Some(Atom(p));
      } else {
        SomeBuiltGivesExpression(init, build, 0);
        var x := Combined(init, build).value;
        assert Combined(filters, build) == Some(AndAlso(x, Atom(p)));
        assert Eval(AndAlso(x, Atom(p)), row) == (Eval(x, row) && Eval(Atom(p), row));
        assert Eval(Atom(p), row) == p(row);
        assert Passes(init, build, row) == Eval(x, row);
      }
    }
  }

  /** With every filter built and joined by Or, a row passes exactly when it
    * passes some filter. */
  lemma {:induction false} AllOrIsDisjunction<T(!new)>(filters: seq<FilterDefinition>, build: FilterDefinition -> Option<T -> bool>, row: T)
    requires filters != []
    requires forall i :: 0 <= i < |filters| ==> build(filters[i]).Some?
    requires forall i :: 1 <= i < |filters| ==> filters[i].logic == Or
    ensures Passes(filters, build, row) <==> exists i :: 0 <= i < |filters| && build(filters[i]).value(row)
    decreases |filters|
  {
    var init := filters[..|filters| - 1];
    var last := |filters| - 1;
    var p := build(filters[last]).value;
    if init == [] {
      assert Combined(filters, build) == Some(Atom(p));
    } else {
      AllOrIsDisjunction(init, build, row);
      SomeBuiltGivesExpression(init, build, 0);
      assert forall i :: 0 <= i < |init| ==> init[i] == filters[i];
      var x := Combined(init, build).value;
      assert Combined(filters, build) == Some(OrElse(x, Atom(p)));
      assert Eval(OrElse(x, Atom(p)), row) == (Eval(x, row) || Eval(Atom(p), row));
      assert Eval(Atom(p), row) == p(row);
      assert Passes(init, build, row) == Eval(x, row);
      if exists i :: 0 <= i < |filters| && build(filters[i]).value(row) {
        var i :| 0 <= i < |filters| && build(filters[i]).value(row);
        if i < last {
          assert build(init[i]).value(row);
        }
      }
    }
  }

  /** Once one filter is built, the fold has an expression. */
  lemma {:induction false} SomeBuiltGivesExpression<T(!new)>(filters: seq<FilterDefinition>, build: FilterDefinition -> Option<T -> bool>, k: nat)
    requires k < |filters| && build(filters[k]).Some?
    ensures Combined(filters, build).Some?
    decreases |filters|
  {
    if k < |filters| - 1 {
      SomeBuiltGivesExpression(filters[..|filters| - 1], build, k);
    }
  }

  /** The fold has no precedence: `a, Or b, And c` is `(a || b) && c`. */
  lemma LeftFoldNoPrecedence<T(!new)>(a: FilterDefinition, b: FilterDefinition, c: FilterDefinition,
                                build: FilterDefinition -> Option<T -> bool>, row: T)
    requires build(a).Some? && build(b).Some? && build(c).Some?
    requires b.logic == Or && c.logic == And
    ensures Passes([a, b, c], build, row) <==> (build(a).value(row) || build(b).value(row)) && build(c).value(row)
  {
    var pa, pb, pc := build(a).value, build(b).value, build(c).value;
    assert [a, b, c][..2] == [a, b];
    assert [a, b][..1] == [a];
    assert [a][..0] == [];
    assert Combined([a], build) == Some(Atom(pa));
    assert Combined([a, b], build) == Some(OrElse(Atom(pa), Atom(pb)));
    assert Combined([a, b, c], build) == Some(AndAlso(OrElse(Atom(pa), Atom(pb)), Atom(pc)));
    assert Eval(OrElse(Atom(pa), Atom(pb)), row) == (pa(row) || pb(row));
    assert Eval(AndAlso(OrElse(Atom(pa), Atom(pb)), Atom(pc)), row) == ((pa(row) || pb(row)) && pc(row));
  }

  // ---------------------------------------------------------------------------
  // Sorting and paging
  // ---------------------------------------------------------------------------

  /** `ApplySort`: a blank or unknown column leaves the order; otherwise the
    * rows are ordered by the column's key, ascending or descending. */
  function ApplySort<T(!new)>(rows: seq<T>, sortColumn: string, ascending: bool, column: string -> Option<T -> int>): (r: seq<T>)
    ensures multiset(r) == multiset(rows)
    ensures IsBlank(sortColumn) || column(sortColumn).None? ==> r == rows
    ensures !IsBlank(sortColumn) && column(sortColumn).Some? && ascending ==>
              forall i, j :: 0 <= i < j < |r| ==> column(sortColumn).value(r[i]) <= column(sortColumn).value(r[j])
    ensures !IsBlank(sortColumn) && column(sortColumn).Some? && !ascending ==>
              forall i, j :: 0 <= i < j < |r| ==> column(sortColumn).value(r[i]) >= column(sortColumn).value(r[j])
  {
    if IsBlank(sortColumn) || column(sortColumn).None? then rows
    else
      var key := column(sortColumn).value;
      ByKeyIsPreorder(key);
      var r := SortBy(rows, if ascending then ByKey(key) else ByKeyDescending(key));
      assert forall i, j :: 0 <= i < j < |r| ==> (if ascending then ByKey(key) else ByKeyDescending(key))(r[i], r[j]);
      r
  }

  const DefaultPageSize := 50

  /** The page number used: below 1 counts as 1. */
  function ClampPage(page: int): (r: int)
    ensures r >= 1 && (page >= 1 ==> r == page)
  {
    if page < 1 then 1 else page
  }

  /** The page size used: below 1 counts as the default. */
  function ClampSize(pageSize: int): (r: int)
    ensures r >= 1 && (pageSize >= 1 ==> r == pageSize) && (pageSize < 1 ==> r == DefaultPageSize)
  {
    if pageSize < 1 then DefaultPageSize else pageSize
  }

  /** The argument of `Skip`: the rows of the earlier pages, an `int`
    * product that wraps around past 2^31 - 1. Page and size are C# `int`s. */
  function PageStart(page: int, pageSize: int): (r: int)
    requires Int32Min <= page <= Int32Max && Int32Min <= pageSize <= Int32Max
    ensures Int32Min <= r <= Int32Max
    ensures (ClampPage(page) - 1) * ClampSize(pageSize) <= Int32Max ==> 0 <= r == (ClampPage(page) - 1) * ClampSize(pageSize)
  {
    MulNonNegative(ClampPage(page) - 1, ClampSize(pageSize));
    WrapInt32((ClampPage(page) - 1) * ClampSize(pageSize))
  }

  lemma MulNonNegative(a: int, b: int)
    requires a >= 0 && b >= 0
    ensures a * b >= 0
  {
  }

  /** How many rows `Skip` passes over: a negative count skips none (as
    * `Enumerable.Skip` and SQLite's OFFSET do). */
  function RowsSkipped(page: int, pageSize: int): (r: nat)
    requires Int32Min <= page <= Int32Max && Int32Min <= pageSize <= Int32Max
    ensures PageStart(page, pageSize) >= 0 ==> r == PageStart(page, pageSize)
  {
    var start := PageStart(page, pageSize);
    if start < 0 then 0 else start
  }

  /** Page 2147483647 of size 50 asks `Skip` for 2147483646 x 50 rows, which
    * wraps around to -100: the last possible page shows the first rows. */
  lemma PageStartOverflows<T(!new)>(rows: seq<T>)
    ensures PageStart(Int32Max, 50) == -100
    ensures ApplyPagination(rows, Int32Max, 50) == ApplyPagination(rows, 1, 50)
  {
    assert (Int32Max - 1) * 50 == 107374182300;
    assert WrapInt32(107374182300) == -100;
  }

  /** `ApplyPagination`: a page below 1 is page 1 and a size below 1 is 50;
    * the page holds at most that many rows, taken in order from PageStart,
    * and as many as there are rows left, up to the size. */
  function ApplyPagination<T(!new)>(rows: seq<T>, page: int, pageSize: int): (r: seq<T>)
    requires Int32Min <= page <= Int32Max && Int32Min <= pageSize <= Int32Max
    ensures |r| <= ClampSize(pageSize)
    ensures forall i :: 0 <= i < |r| ==> RowsSkipped(page, pageSize) + i < |rows| && r[i] == rows[RowsSkipped(page, pageSize) + i]
    ensures var left := |rows| - RowsSkipped(page, pageSize);
      |r| == if left <= 0 then 0 else if left < ClampSize(pageSize) then left else ClampSize(pageSize)
  {
    var start := RowsSkipped(page, pageSize);
    var size := ClampSize(pageSize);
    PageShape(rows, start, size);
    Take(Skip(rows, start), size)
  }

  /** Skipping `start` rows and taking `size` of the rest. */
  lemma PageShape<T>(rows: seq<T>, start: nat, size: nat)
    ensures var r := Take(Skip(rows, start), size);
      var left := |rows| - start;
      && |r| == (if left <= 0 then 0 else if left < size then left else size)
      && forall i :: 0 <= i < |r| ==> start + i < |rows| && r[i] == rows[start + i]
  {
    var r := Take(Skip(rows, start), size);
    forall i | 0 <= i < |r|
      ensures start + i < |rows| && r[i] == rows[start + i]
    {
      PageContents(rows, start, size, i);
    }
  }

  // ---------------------------------------------------------------------------
  // Templates
  // ---------------------------------------------------------------------------

  datatype QueryTemplate = QueryTemplate(
    id: string,
    name: string,
    description: Option<string>,
    category: Option<string>,
    filters: seq<FilterDefinition>,
    sortColumn: Option<string>,
    sortAscending: bool,
    pageSize: Option<int>,
    createdAt: int,
    updatedAt: Option<int>)

  /** Whether a template is listed for `category`: every one when it is null or empty. */
  predicate InCategory(t: QueryTemplate, category: Option<string>) {
    IsNullOrEmpty(category) || t.category == category
  }

  function ByName(a: QueryTemplate, b: QueryTemplate): bool {
    OrdinalLe(a.name, b.name)
  }

  lemma ByNameIsPreorder()
    ensures TotalPreorder(ByName)
  {
    forall a: QueryTemplate, b: QueryTemplate
      ensures ByName(a, b) || ByName(b, a)
    {
      OrdinalLeTotal(a.name, b.name);
    }
    forall a: QueryTemplate, b: QueryTemplate, c: QueryTemplate | ByName(a, b) && ByName(b, c)
      ensures ByName(a, c)
    {
      OrdinalLeTransitive(a.name, b.name, c.name);
    }
  }

  class QueryEngine {
    /** Saved templates by id. */
    var templates: map<string, QueryTemplate>

    ghost predicate Valid()
      reads this
    {
      forall id :: id in templates ==> templates[id].id == id
    }

    constructor()
      ensures templates == map[] && Valid()
    {
      templates := map[];
    }

    /** `SaveQueryTemplateAsync`: stamps the template with `now` and adds or
      * replaces it under its id; writing the file never fails the call. */
    method SaveTemplate(template: QueryTemplate, now: int) returns (r: Result<bool>)
      requires Valid()
      modifies this
      ensures Valid()
      ensures r == Success(true)
      ensures templates == old(templates)[template.id := template.(updatedAt := Some(now))]
    {
      templates := templates[template.id := template.(updatedAt := Some(now))];
      r := Success(true);
    }

    /** `DeleteQueryTemplateAsync`: removes a saved template; an unknown id fails. */
    method DeleteTemplate(templateId: string) returns (r: Result<bool>)
      requires Valid()
      modifies this
      ensures Valid()
      ensures r.Success? <==> templateId in old(templates)
      ensures r.Success? ==> r.value && templates == old(templates) - {templateId}
      ensures r.Failure? ==> r.error == NotFound("template") && templates == old(templates)
    {
      if templateId in templates {
        templates := templates - {templateId};
        r := Success(true);
      } else {
        r := Failure(NotFound("template"));
      }
    }

    /** `GetQueryTemplatesAsync`: the saved templates in the category (all of
      * them for a null or empty one), each once, sorted by name. */
    method GetTemplates(category: Option<string>) returns (r: seq<QueryTemplate>)
      requires Valid()
      ensures forall t :: t in r <==> t in templates.Values && InCategory(t, category)
      ensures forall i, j :: 0 <= i < j < |r| ==> r[i].id != r[j].id
      ensures forall i, j :: 0 <= i < j < |r| ==> OrdinalLe(r[i].name, r[j].name)
    {
      var picked := PickTemplates(templates, category);
      ByNameIsPreorder();
      r := SortBy(picked, ByName);
      SortedTemplates(picked, r);
    }

    /** `ApplyTemplate`: an unknown id leaves the rows unchanged; otherwise the
      * template's filters are applied, then its sort when it names a column. */
    method ApplyTemplate<T(!new)>(rows: seq<T>, templateId: string,
                                  build: FilterDefinition -> Option<T -> bool>, column: string -> Option<T -> int>)
      returns (r: seq<T>)
      ensures templateId !in templates ==> r == rows
      ensures templateId in templates ==>
                var t := templates[templateId];
                var filtered := Filtered(rows, t.filters, build);
                r == if IsNullOrEmpty(t.sortColumn) then filtered else ApplySort(filtered, t.sortColumn.value, t.sortAscending, column)
    {
      if templateId !in templates {
        return rows;
      }
      var t := templates[templateId];
      r := ApplyFilters(rows, t.filters, build);
      if !IsNullOrEmpty(t.sortColumn) {
        r := ApplySort(r, t.sortColumn.value, t.sortAscending, column);
      }
    }
  }

  /** The loop of `GetQueryTemplatesAsync`: the templates of a category, each once. */
  method PickTemplates(templates: map<string, QueryTemplate>, category: Option<string>)
    returns (picked: seq<QueryTemplate>)
    requires forall id :: id in templates ==> templates[id].id == id
    ensures forall t :: t in picked <==> t in templates.Values && InCategory(t, category)
    ensures forall i, j :: 0 <= i < j < |picked| ==> picked[i].id != picked[j].id
  {
    var ids := templates.Keys;
    picked := [];
    while ids != {}
      invariant ids <= templates.Keys
      invariant forall t :: t in picked <==> t.id in templates.Keys - ids && t == templates[t.id] && InCategory(t, category)
      invariant forall i, j :: 0 <= i < j < |picked| ==> picked[i].id != picked[j].id
      decreases |ids|
    {
      var id :| id in ids;
      var t := templates[id];
      if InCategory(t, category) {
        picked := picked + [t];
      }
      ids := ids - {id};
    }
  }

  /** Sorting the picked templates by name keeps them, each once, and puts
    * them in name order. */
  lemma SortedTemplates(picked: seq<QueryTemplate>, r: seq<QueryTemplate>)
    requires forall i, j :: 0 <= i < j < |picked| ==> picked[i].id != picked[j].id
    requires TotalPreorder(ByName) && r == SortBy(picked, ByName)
    ensures forall t :: t in r <==> t in picked
    ensures forall i, j :: 0 <= i < j < |r| ==> r[i].id != r[j].id
    ensures forall i, j :: 0 <= i < j < |r| ==> OrdinalLe(r[i].name, r[j].name)
  {
    forall t
      ensures t in r <==> t in picked
    {
      SortByMembers(picked, ByName, t);
    }
    forall i, j | 0 <= i < j < |r|
      ensures r[i].id != r[j].id
    {
      if r[i].id == r[j].id {
        assert r[i] in r && r[j] in r;
        assert r[i] in picked && r[j] in picked;
        var a :| 0 <= a < |picked| && picked[a] == r[i];
        var b :| 0 <= b < |picked| && picked[b] == r[j];
        assert a == b;
        TwiceCounted(r, i, j);
        NoRepeatedTemplate(picked, r[i]);
      }
    }
    forall i, j | 0 <= i < j < |r|
      ensures OrdinalLe(r[i].name, r[j].name)
    {
      assert ByName(r[i], r[j]);
    }
  }

  /** A list whose entries have distinct ids holds no entry twice. */
  lemma NoRepeatedTemplate(s: seq<QueryTemplate>, t: QueryTemplate)
    requires forall i, j :: 0 <= i < j < |s| ==> s[i].id != s[j].id
    ensures multiset(s)[t] <= 1
  {
    if t in s {
      var i :| 0 <= i < |s| && s[i] == t;
      var rest := s[..i] + s[i + 1..];
      assert s == s[..i] + [s[i]] + s[i + 1..];
      assert multiset(s) == multiset(rest) + multiset{t};
      forall j | 0 <= j < |rest|
        ensures rest[j] != t
      {
        if j < i {
          assert rest[j] == s[j];
        } else {
          assert rest[j] == s[j + 1];
        }
      }
      assert t !in multiset(rest);
    }
  }
}
