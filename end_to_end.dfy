/** The handlers run against the article models and the error middleware:
    what the client is finally told when a model raises an application
    error, and what goes past the middleware when it does not. */
module EndToEnd {
  import opened Js
  import opened Db
  import opened Handlers
  import M = ArticlesModels
  import ArticlesControllers
  import CommentsControllers
  import ErrorsControllers

  /** The article models over a driver; the comment models, whose code is
      not part of this model, settle as `comments` says. */
  function ModelBackend(db: Driver, comments: Backend): Backend
  {
    (c: Call) => Dispatch(db, comments, c)
  }

  function Dispatch(db: Driver, comments: Backend, c: Call): Outcome
  {
    match c
    case FetchArticleById(id) => M.FetchArticleById(id, db)
    case FetchAllArticles(topic, order, sortBy) => M.AllArticlesOutcome(topic, order, sortBy, db)
    case EditArticleById(id, incVotes) => M.EditOutcome(id, incVotes, db)
    case _ => comments(c)
  }

  /** The last event of a handler's trace after the error middleware has
      seen it: `next(err)` reaches `handleCustomErrors`. */
  function Answer(t: Trace): (e: Event)
    requires Settled(t)
    ensures !t[|t| - 1].Next? ==> e == t[|t| - 1]
    ensures t[|t| - 1].Next? ==> e == ErrorsControllers.HandleCustomErrors(t[|t| - 1].err)
  {
    var last := t[|t| - 1];
    if last.Next? then ErrorsControllers.HandleCustomErrors(last.err) else last
  }

  function NotFoundReply(msg: string): Event
  {
    Send(Num(404.0), Obj(map["msg" := Str(msg)]))
  }

  /** An id with no row: every handler guarded by `fetchArticleById` answers
      404 'Article not found', and its action never runs. */
  lemma MissingArticleAnswered404(req: Request, db: Driver, comments: Backend)
    requires db(M.ArticleByIdQuery(Get(req.params, "article_id"))) == Rows([])
    ensures var b := ModelBackend(db, comments);
      && Answer(ArticlesControllers.GetArticleById(req, b)) == NotFoundReply("Article not found")
      && Answer(ArticlesControllers.PatchArticleById(req, b)) == NotFoundReply("Article not found")
      && Answer(CommentsControllers.GetCommentsOnArticle(req, b)) == NotFoundReply("Article not found")
      && Answer(CommentsControllers.PostNewCommentOnArticle(req, b)) == NotFoundReply("Article not found")
      && |ArticlesControllers.PatchArticleById(req, b)| == 2
      && |CommentsControllers.GetCommentsOnArticle(req, b)| == 2
      && |CommentsControllers.PostNewCommentOnArticle(req, b)| == 2
  {
    var b := ModelBackend(db, comments);
    var id := Get(req.params, "article_id");
    assert b(FetchArticleById(id)) == Rejected(M.ArticleNotFound);
    ErrorsControllers.AppErrorsAnsweredVerbatim(404.0, "Article not found");
  }

  /** An `order` or `sort_by` off its allow-list: the client gets 400
      'Bad request', whatever the driver would have answered. */
  lemma BadSortAnswered400(req: Request, db: Driver, comments: Backend)
    requires !M.AllowListed(Get(req.query, "order"), Get(req.query, "sort_by"))
    ensures Answer(ArticlesControllers.GetAllArticles(req, ModelBackend(db, comments)))
         == Send(Num(400.0), Obj(map["msg" := Str("Bad request")]))
  {
    var b := ModelBackend(db, comments);
    var q := req.query;
    assert b(FetchAllArticles(Get(q, "topic"), Get(q, "order"), Get(q, "sort_by"))) == Rejected(M.BadRequest);
    ErrorsControllers.AppErrorsAnsweredVerbatim(400.0, "Bad request");
  }

  /** A filter that matches no article: 404 'Articles not found'. */
  lemma NoMatchAnswered404(req: Request, db: Driver, comments: Backend)
    requires M.AllowListed(Get(req.query, "order"), Get(req.query, "sort_by"))
    requires db(M.ArticlesQuery(Get(req.query, "topic"), Get(req.query, "order"), Get(req.query, "sort_by")).value) == Rows([])
    ensures Answer(ArticlesControllers.GetAllArticles(req, ModelBackend(db, comments)))
         == NotFoundReply("Articles not found")
  {
    var b := ModelBackend(db, comments);
    var q := req.query;
    assert b(FetchAllArticles(Get(q, "topic"), Get(q, "order"), Get(q, "sort_by"))) == Rejected(M.ArticlesNotFound);
    ErrorsControllers.AppErrorsAnsweredVerbatim(404.0, "Articles not found");
  }

  /** A driver error without `status` and `msg` (such as a type mismatch on
      the id) goes past the middleware unchanged. */
  lemma DriverErrorPassesThrough(req: Request, db: Driver, comments: Backend, err: Props)
    requires db(M.ArticleByIdQuery(Get(req.params, "article_id"))) == DbError(err)
    requires "status" !in err
    ensures Answer(ArticlesControllers.GetArticleById(req, ModelBackend(db, comments))) == Next(err)
  {
    var b := ModelBackend(db, comments);
    assert b(FetchArticleById(Get(req.params, "article_id"))) == Rejected(err);
  }

  /** An existing article, and a driver that answers the update: the response
      is 200 with the updated row the driver returned. */
  lemma PatchAnswersUpdatedRow(req: Request, db: Driver, comments: Backend, row: JsValue, updated: JsValue)
    requires db(M.ArticleByIdQuery(Get(req.params, "article_id"))) == Rows([row])
    requires db(M.EditQuery(Get(req.params, "article_id"), Get(req.body, "inc_votes"))) == Rows([updated])
    ensures Answer(ArticlesControllers.PatchArticleById(req, ModelBackend(db, comments)))
         == Send(Num(200.0), Obj(map["article" := updated]))
  {
    var b := ModelBackend(db, comments);
    var id := Get(req.params, "article_id");
    assert b(FetchArticleById(id)) == Resolved(row);
    assert b(EditArticleById(id, Get(req.body, "inc_votes"))) == Resolved(updated);
  }
}
