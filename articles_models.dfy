/** The article models: how each builds its query for the driver, what it
    validates first, and how it turns the driver's rows into an outcome. */
module ArticlesModels {
  import opened Js
  import opened Db

  // ---------------------------------------------------------------------
  // Application errors raised by the models
  // ---------------------------------------------------------------------

  const ArticleNotFound: Props := AppError(404.0, "Article not found")
  const ArticlesNotFound: Props := AppError(404.0, "Articles not found")
  const BadRequest: Props := AppError(400.0, "Bad request")

  // ---------------------------------------------------------------------
  // fetchArticleById
  // ---------------------------------------------------------------------

  // The SQL text, line by line as the models write it. A long literal is
  // spelled in short pieces only so that the verifier can read it cheaply.
  const SelectLine: string :=
    "SELECT articles.*, " + "count(comments." + "comment_id) " + "AS comment_count"
  const FromLine: string := "    FROM articles"
  const JoinLine: string :=
    "    LEFT JOIN " + "comments ON " + "articles.article_id" + "=comments." + "article_id"
  const GroupLine: string := "GROUP BY " + "articles.article_id"

  /** The text of `fetchArticleById`'s query: the filter that holds its one
      placeholder `$1`, and the fixed text around it. */
  const ArticleByIdHead: string :=
    "\n    " + SelectLine + "\n" + FromLine + "\n" + JoinLine + "\n    "
  const IdFilter: string := "WHERE articles." + "article_id = " + "$1"
  const ArticleByIdTail: string := "\n    " + GroupLine + "\n    \n    "

  lemma SelectLineNoDollar()
    ensures NoDollar(SelectLine)
  {
  }

  lemma JoinLineNoDollar()
    ensures NoDollar(JoinLine)
  {
  }

  lemma SqlLinesNoDollar()
    ensures NoDollar(SelectLine) && NoDollar(FromLine) && NoDollar(JoinLine) && NoDollar(GroupLine)
  {
    SelectLineNoDollar();
    JoinLineNoDollar();
  }

  lemma ArticleByIdTextNoDollar()
    ensures NoDollar(ArticleByIdHead) && NoDollar(ArticleByIdTail)
    ensures NoDollar("WHERE articles." + "article_id = ")
  {
    SqlLinesNoDollar();
  }

  lemma IdFilterDollars()
    ensures Dollars(IdFilter) == 1
  {
    ArticleByIdTextNoDollar();
    NoDollarHasNone("WHERE articles." + "article_id = ");
    DollarsConcat("WHERE articles." + "article_id = ", "$1");
    assert Dollars("$1") == 1;
  }

  /** The placeholder `$1` is what the row's id is compared with. */
  lemma IdFilterSpelling()
    ensures IdFilter == "WHERE articles.article_id = $1"
  {
  }

  /** The query `fetchArticleById` issues: a fixed text whose one placeholder
      binds the id, in the filter `WHERE articles.article_id = $1`. */
  function ArticleByIdQuery(articleId: JsValue): (q: Query)
    ensures q.params == [articleId]
    ensures WellParameterised(q)
    ensures Occurs("$1", q.text) && Occurs("WHERE articles.article_id = $1", q.text)
  {
    var q := Query(ArticleByIdHead + IdFilter + ArticleByIdTail, [articleId]);
    IdFilterDollars();
    DollarsConcat(ArticleByIdHead, IdFilter);
    DollarsConcat(ArticleByIdHead + IdFilter, ArticleByIdTail);
    ArticleByIdTextNoDollar();
    NoDollarHasNone(ArticleByIdHead);
    NoDollarHasNone(ArticleByIdTail);
    OccursSelf("$1");
    OccursPrepend("$1", "WHERE articles." + "article_id = ", "$1");
    OccursSelf(IdFilter);
    IdFilterSpelling();
    OccursPrepend(IdFilter, ArticleByIdHead, IdFilter);
    OccursAppend(IdFilter, ArticleByIdHead + IdFilter, ArticleByIdTail);
    OccursPrepend("$1", ArticleByIdHead, IdFilter);
    OccursAppend("$1", ArticleByIdHead + IdFilter, ArticleByIdTail);
    q
  }

  /** `fetchArticleById`: no row rejects with 404 'Article not found',
      otherwise the first row; a driver error propagates. */
  function FetchArticleById(articleId: JsValue, db: Driver): (r: Outcome)
    ensures var res := db(ArticleByIdQuery(articleId));
      && (res.DbError? ==> r == Rejected(res.reason))
      && (res.Rows? && res.rows == [] ==> r == Rejected(ArticleNotFound))
      && (res.Rows? && res.rows != [] ==> r == Resolved(res.rows[0]))
  {
    match db(ArticleByIdQuery(articleId))
    case DbError(e) => Rejected(e)
    case Rows(rows) =>
      if |rows| == 0 then Rejected(ArticleNotFound) else Resolved(rows[0])
  }

  // ---------------------------------------------------------------------
  // fetchAllArticles
  // ---------------------------------------------------------------------

  /** The accepted values of `order`, compared exactly. */
  const Orders: seq<string> := ["ASC", "DESC", "asc", "desc"]

  /** The accepted values of `sort_by`. */
  const SortColumns: seq<string> :=
    ["article_id", "title", "topic", "author", "body", "created_at", "votes",
     "article_img_url", "comment_count"]

  const SelectArticles: string := SelectLine + "\n" + FromLine + "\n" + JoinLine + " "
  const WhereTopicHead: string := " WHERE topic = "
  const WhereTopicTail: string := " "
  const GroupOrderBy: string := " " + GroupLine + "\n  ORDER BY "

  lemma ArticlesTextNoDollar()
    ensures NoDollar(SelectArticles) && NoDollar(WhereTopicHead) && NoDollar(WhereTopicTail)
    ensures NoDollar(GroupOrderBy)
  {
    SqlLinesNoDollar();
  }

  /** The filter clause appended when a topic is given. */
  const WhereTopic: string := WhereTopicHead + "$1" + WhereTopicTail

  /** `order` after its default. */
  function OrderArg(order: JsValue): JsValue
  {
    WithDefault(order, Str("DESC"))
  }

  /** `sort_by` after its default. */
  function SortArg(sortBy: JsValue): JsValue
  {
    WithDefault(sortBy, Str("created_at"))
  }

  /** Both arguments, after their defaults, are on their allow-lists. */
  predicate AllowListed(order: JsValue, sortBy: JsValue)
  {
    Includes(Orders, OrderArg(order)) && Includes(SortColumns, SortArg(sortBy))
  }

  /** Everything in the articles query before the interpolated `ORDER BY`
      arguments: fixed text, and the filter clause when there is a topic. */
  function ArticlesQueryHead(filtered: bool): string
  {
    SelectArticles + (if filtered then WhereTopic else "") + GroupOrderBy
  }

  /** The query `fetchAllArticles` issues, or None when it rejects before
      issuing one. */
  function ArticlesQuery(topic: JsValue, order: JsValue, sortBy: JsValue): (q: Option<Query>)
    ensures q.Some? <==> AllowListed(order, sortBy)
    ensures q.Some? ==> q.value.params == (if Truthy(topic) then [topic] else [])
  {
    if !AllowListed(order, sortBy) then None
    else
      Some(Query(ArticlesQueryHead(Truthy(topic)) + SortArg(sortBy).s + " " + OrderArg(order).s + ";",
                 if Truthy(topic) then [topic] else []))
  }

  /** What `fetchAllArticles` settles with, given the driver. */
  function AllArticlesOutcome(topic: JsValue, order: JsValue, sortBy: JsValue, db: Driver): (r: Outcome)
    ensures !AllowListed(order, sortBy) ==> r == Rejected(BadRequest)
    ensures AllowListed(order, sortBy) ==>
      var res := db(ArticlesQuery(topic, order, sortBy).value);
      && (res.DbError? ==> r == Rejected(res.reason))
      && (res.Rows? && res.rows == [] ==> r == Rejected(ArticlesNotFound))
      && (res.Rows? && res.rows != [] ==> r == Resolved(Arr(res.rows)))
  {
    match ArticlesQuery(topic, order, sortBy)
    case None => Rejected(BadRequest)
    case Some(q) =>
      match db(q)
      case DbError(e) => Rejected(e)
      case Rows(rows) => if |rows| == 0 then Rejected(ArticlesNotFound) else Resolved(Arr(rows))
  }

  /** `fetchAllArticles(topic, order = 'DESC', sort_by = 'created_at')`: checks
      both arguments against their allow-lists, then builds the query text and
      its parameter list step by step and hands them to the driver. `issued`
      is the query passed to the driver, None when none was. */
  method FetchAllArticles(topic: JsValue, order: JsValue, sortBy: JsValue, db: Driver)
    returns (issued: Option<Query>, r: Outcome)
    ensures issued == ArticlesQuery(topic, order, sortBy)
    ensures r == AllArticlesOutcome(topic, order, sortBy, db)
    ensures issued.None? <==> !AllowListed(order, sortBy)
    ensures issued.Some? ==> WellParameterised(issued.value)
  {
    var ord := WithDefault(order, Str("DESC"));
    var sort := WithDefault(sortBy, Str("created_at"));
    var queryParameters: seq<JsValue> := [];
    if !Includes(Orders, ord) {
      return None, Rejected(BadRequest);
    }
    if !Includes(SortColumns, sort) {
      return None, Rejected(BadRequest);
    }
    var queryString := SelectArticles;
    if Truthy(topic) {
      queryString := queryString + WhereTopic;
      queryParameters := queryParameters + [topic];
      assert queryParameters == [topic];
    } else {
      assert queryString == SelectArticles + "";
    }
    assert queryString + GroupOrderBy == ArticlesQueryHead(Truthy(topic));
    queryString := queryString + GroupOrderBy + sort.s + " " + ord.s + ";";
    issued := Some(Query(queryString, queryParameters));
    ArticlesQueryWellParameterised(topic, order, sortBy);
    match db(issued.value)
    case DbError(e) => r := Rejected(e);
    case Rows(rows) =>
      if |rows| == 0 {
        r := Rejected(ArticlesNotFound);
      } else {
        r := Resolved(Arr(rows));
      }
  }

  // ---------------------------------------------------------------------
  // Properties of the articles query
  // ---------------------------------------------------------------------

  lemma SortColumnsNoDollar(s: string)
    requires s in SortColumns
    ensures NoDollar(s)
  {
  }

  lemma OrdersNoDollar(s: string)
    requires s in Orders
    ensures NoDollar(s)
  {
  }

  /** The fixed part of the articles query carries a placeholder exactly when
      it holds the topic filter. */
  lemma HeadDollars(filtered: bool)
    ensures Dollars(ArticlesQueryHead(filtered)) == if filtered then 1 else 0
  {
    ArticlesTextNoDollar();
    NoDollarHasNone(SelectArticles);
    NoDollarHasNone(GroupOrderBy);
    NoDollarHasNone(WhereTopicHead);
    NoDollarHasNone(WhereTopicTail);
    DollarsConcat(WhereTopicHead, "$1");
    DollarsConcat(WhereTopicHead + "$1", WhereTopicTail);
    var filter := if filtered then WhereTopic else "";
    DollarsConcat(SelectArticles, filter);
    DollarsConcat(SelectArticles + filter, GroupOrderBy);
  }

  /** Whenever a query is issued, the number of placeholders in its text is
      the number of parameters bound. */
  lemma ArticlesQueryWellParameterised(topic: JsValue, order: JsValue, sortBy: JsValue)
    requires ArticlesQuery(topic, order, sortBy).Some?
    ensures WellParameterised(ArticlesQuery(topic, order, sortBy).value)
  {
    var s, o := SortArg(sortBy).s, OrderArg(order).s;
    HeadDollars(Truthy(topic));
    SortColumnsNoDollar(s);
    OrdersNoDollar(o);
    OrderByDollars(ArticlesQueryHead(Truthy(topic)), s, o);
  }

  /** Appending allow-listed words adds no placeholder. */
  lemma OrderByDollars(head: string, s: string, o: string)
    requires NoDollar(s) && NoDollar(o)
    ensures Dollars(head + s + " " + o + ";") == Dollars(head)
  {
    NoDollarHasNone(s + " " + o + ";");
    DollarsConcat(head, s + " " + o + ";");
    assert head + s + " " + o + ";" == head + (s + " " + o + ";");
  }

  /** Whatever occurs in the filter clause occurs in the filtered query. */
  lemma FilterClauseInQuery(sub: string, s: string, o: string)
    requires Occurs(sub, WhereTopic)
    ensures Occurs(sub, ArticlesQueryHead(true) + s + " " + o + ";")
  {
    OccursPrepend(sub, SelectArticles, WhereTopic);
    OccursAppend(sub, SelectArticles + WhereTopic, GroupOrderBy);
    var head := ArticlesQueryHead(true);
    OccursAppend(sub, head, s);
    OccursAppend(sub, head + s, " ");
    OccursAppend(sub, head + s + " ", o);
    OccursAppend(sub, head + s + " " + o, ";");
  }

  /** With the filter clause, the text holds ` WHERE topic = $1 `, and so
      mentions `$1`. */
  lemma FilteredTextMentionsPlaceholder(s: string, o: string)
    ensures Occurs(WhereTopic, ArticlesQueryHead(true) + s + " " + o + ";")
    ensures Occurs("$1", ArticlesQueryHead(true) + s + " " + o + ";")
  {
    OccursSelf(WhereTopic);
    FilterClauseInQuery(WhereTopic, s, o);
    OccursSelf("$1");
    OccursPrepend("$1", WhereTopicHead, "$1");
    OccursAppend("$1", WhereTopicHead + "$1", WhereTopicTail);
    FilterClauseInQuery("$1", s, o);
  }

  /** Without the filter clause, the text has no placeholder at all. */
  lemma UnfilteredTextNoPlaceholder(s: string, o: string)
    requires NoDollar(s) && NoDollar(o)
    ensures NoDollar(ArticlesQueryHead(false) + s + " " + o + ";")
  {
    ArticlesTextNoDollar();
  }

  /** The `$1` placeholder is in the text exactly when a truthy topic is the
      one parameter, and then it sits in the filter ` WHERE topic = $1 `;
      otherwise there is no placeholder and no parameter. */
  lemma ArticlesQueryTopicFilter(topic: JsValue, order: JsValue, sortBy: JsValue)
    requires ArticlesQuery(topic, order, sortBy).Some?
    ensures var q := ArticlesQuery(topic, order, sortBy).value;
      && (Occurs("$1", q.text) <==> Truthy(topic))
      && (Truthy(topic) ==> Occurs(WhereTopic, q.text))
      && (Truthy(topic) <==> q.params == [topic])
      && (!Truthy(topic) <==> q.params == [])
  {
    var s, o := SortArg(sortBy).s, OrderArg(order).s;
    if Truthy(topic) {
      FilteredTextMentionsPlaceholder(s, o);
    } else {
      SortColumnsNoDollar(s);
      OrdersNoDollar(o);
      UnfilteredTextNoPlaceholder(s, o);
      NoDollarNoPlaceholder("$1", ArticlesQueryHead(false) + s + " " + o + ";");
    }
  }

  /** The only text interpolated into the query comes after the fixed head:
      an allow-listed `sort_by` followed by an allow-listed `order`; the topic
      only ever travels as a parameter. */
  lemma ArticlesQueryOrderBy(topic: JsValue, order: JsValue, sortBy: JsValue)
    requires ArticlesQuery(topic, order, sortBy).Some?
    ensures SortArg(sortBy).Str? && SortArg(sortBy).s in SortColumns
    ensures OrderArg(order).Str? && OrderArg(order).s in Orders
    ensures ArticlesQuery(topic, order, sortBy).value.text
         == ArticlesQueryHead(Truthy(topic)) + SortArg(sortBy).s + " " + OrderArg(order).s + ";"
  {
  }

  /** Two topics that are both truthy (or both falsy) give the same query text:
      no topic value can change the SQL. */
  lemma TopicNeverInterpolated(t1: JsValue, t2: JsValue, order: JsValue, sortBy: JsValue)
    requires Truthy(t1) == Truthy(t2)
    ensures ArticlesQuery(t1, order, sortBy).Some? == ArticlesQuery(t2, order, sortBy).Some?
    ensures ArticlesQuery(t1, order, sortBy).Some? ==>
      ArticlesQuery(t1, order, sortBy).value.text == ArticlesQuery(t2, order, sortBy).value.text
  {
  }

  /** Absent (`undefined`) arguments sort by `created_at`, descending. */
  lemma ArticlesQueryDefaults(topic: JsValue)
    ensures ArticlesQuery(topic, Undefined, Undefined).Some?
    ensures ArticlesQuery(topic, Undefined, Undefined).value.text
         == ArticlesQueryHead(Truthy(topic)) + "created_at DESC;"
  {
  }

  /** Matching is exact: a differently capitalised `order`, or a `null` that
      the default does not replace, is rejected with 400 before any query. */
  lemma OrderMatchIsExact(topic: JsValue, db: Driver)
    ensures ArticlesQuery(topic, Str("Asc"), Undefined).None?
    ensures ArticlesQuery(topic, Null, Undefined).None?
    ensures ArticlesQuery(topic, Str("asc"), Undefined).Some?
    ensures AllArticlesOutcome(topic, Str("Asc"), Undefined, db) == Rejected(BadRequest)
  {
  }

  /** A rejected argument settles the promise without consulting the driver. */
  lemma RejectionIgnoresDriver(topic: JsValue, order: JsValue, sortBy: JsValue, db1: Driver, db2: Driver)
    requires !AllowListed(order, sortBy)
    ensures AllArticlesOutcome(topic, order, sortBy, db1) == AllArticlesOutcome(topic, order, sortBy, db2)
  {
  }

  // ---------------------------------------------------------------------
  // editArticleById
  // ---------------------------------------------------------------------

  // The update's text, cut so that each placeholder stays with the column
  // it is bound to.
  const EditSet: string := "UPDATE articles \n" + "      SET "
  const VotesIncrement: string := "votes = votes + " + "$1"
  const EditWhere: string := " \n      "
  const IdBinding: string := "WHERE article_id = " + "$2"
  const EditTail: string := " \n      " + "RETURNING *;"
  const EditText: string := EditSet + VotesIncrement + EditWhere + IdBinding + EditTail

  lemma EditTextNoDollar()
    ensures NoDollar(EditSet) && NoDollar(EditWhere) && NoDollar(EditTail)
    ensures NoDollar("votes = votes + ") && NoDollar("WHERE article_id = ")
  {
  }

  lemma PlaceholdersDollars()
    ensures Dollars("$1") == 1 && Dollars("$2") == 1
  {
  }

  lemma VotesIncrementDollars()
    ensures Dollars(VotesIncrement) == 1
  {
    EditTextNoDollar();
    PlaceholdersDollars();
    NoDollarHasNone("votes = votes + ");
    DollarsConcat("votes = votes + ", "$1");
  }

  lemma IdBindingDollars()
    ensures Dollars(IdBinding) == 1
  {
    EditTextNoDollar();
    PlaceholdersDollars();
    NoDollarHasNone("WHERE article_id = ");
    DollarsConcat("WHERE article_id = ", "$2");
  }

  /** The update's text has two placeholders. */
  lemma EditTextDollars()
    ensures Dollars(EditText) == 2
  {
    EditTextNoDollar();
    VotesIncrementDollars();
    IdBindingDollars();
    NoDollarHasNone(EditSet);
    NoDollarHasNone(EditWhere);
    NoDollarHasNone(EditTail);
    DollarsConcat(EditSet, VotesIncrement);
    DollarsConcat(EditSet + VotesIncrement, EditWhere);
    DollarsConcat(EditSet + VotesIncrement + EditWhere, IdBinding);
    DollarsConcat(EditSet + VotesIncrement + EditWhere + IdBinding, EditTail);
  }

  /** `$1` is what is added to `votes` in the assignment, and `$2` is what
      the WHERE clause compares `article_id` with. */
  lemma EditTextBindings()
    ensures Occurs("votes = votes + $1", EditText) && Occurs("WHERE article_id = $2", EditText)
  {
    assert VotesIncrement == "votes = votes + $1";
    assert IdBinding == "WHERE article_id = $2";
    OccursSelf(VotesIncrement);
    OccursPrepend(VotesIncrement, EditSet, VotesIncrement);
    OccursAppend(VotesIncrement, EditSet + VotesIncrement, EditWhere);
    OccursAppend(VotesIncrement, EditSet + VotesIncrement + EditWhere, IdBinding);
    OccursAppend(VotesIncrement, EditSet + VotesIncrement + EditWhere + IdBinding, EditTail);
    OccursSelf(IdBinding);
    OccursPrepend(IdBinding, EditSet + VotesIncrement + EditWhere, IdBinding);
    OccursAppend(IdBinding, EditSet + VotesIncrement + EditWhere + IdBinding, EditTail);
  }

  /** The vote delta: a falsy `inc_votes` (absent, null, 0, '', false) counts
      as 0; anything else is passed on as it is. */
  function VoteDelta(incVotes: JsValue): (d: JsValue)
    ensures Truthy(incVotes) ==> d == incVotes
    ensures !Truthy(incVotes) ==> d == Num(0.0)
  {
    if !Truthy(incVotes) then Num(0.0) else incVotes
  }

  /** The query `editArticleById` issues: the delta binds `$1`, which is
      added to `votes`, and the id binds `$2`, which the WHERE clause
      compares `article_id` with. */
  function EditQuery(articleId: JsValue, incVotes: JsValue): (q: Query)
    ensures q.params == [VoteDelta(incVotes), articleId]
    ensures WellParameterised(q)
    ensures Occurs("votes = votes + $1", q.text) && Occurs("WHERE article_id = $2", q.text)
  {
    var q := Query(EditText, [VoteDelta(incVotes), articleId]);
    EditTextDollars();
    EditTextBindings();
    q
  }

  /** What `editArticleById` settles with: the first returned row, or
      `undefined` when none came back. It has no 404 of its own: it rejects
      only when the driver does. */
  function EditOutcome(articleId: JsValue, incVotes: JsValue, db: Driver): (r: Outcome)
    ensures r.Rejected? <==> db(EditQuery(articleId, incVotes)).DbError?
    ensures var res := db(EditQuery(articleId, incVotes));
      && (res.DbError? ==> r == Rejected(res.reason))
      && (res.Rows? ==> r == Resolved(if res.rows == [] then Undefined else res.rows[0]))
  {
    match db(EditQuery(articleId, incVotes))
    case DbError(e) => Rejected(e)
    case Rows(rows) => Resolved(if |rows| == 0 then Undefined else rows[0])
  }

  /** `editArticleById(article_id, inc_votes)`: replaces a falsy delta by 0,
      then issues the update. */
  method EditArticleById(articleId: JsValue, incVotes: JsValue, db: Driver)
    returns (issued: Query, r: Outcome)
    ensures issued == EditQuery(articleId, incVotes)
    ensures r == EditOutcome(articleId, incVotes, db)
  {
    var inc := incVotes;
    if !Truthy(inc) {
      inc := Num(0.0);
    }
    issued := Query(EditText, [inc, articleId]);
    match db(issued)
    case DbError(e) => r := Rejected(e);
    case Rows(rows) => r := Resolved(if |rows| == 0 then Undefined else rows[0]);
  }
}
