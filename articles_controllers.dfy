/** The article handlers. Each reads its arguments from the request, runs its
    chain of model calls and ends in one response or one `next(err)`. */
module ArticlesControllers {
  import opened Js
  import opened Handlers

  /** `getArticleById`: passes `req.params.article_id` unchanged to
      `fetchArticleById` and answers 200 `{ article }`. */
  function GetArticleById(req: Request, b: Backend): (t: Trace)
    ensures var fetch := FetchArticleById(Get(req.params, "article_id"));
      && |t| == 2 && t[0] == Invoke(fetch) && Settled(t)
      && (b(fetch).Resolved? ==> t[1] == Send(Num(200.0), Obj(map["article" := b(fetch).value])))
      && (b(fetch).Rejected? ==> t[1] == Next(b(fetch).reason))
  {
    var articleId := Get(req.params, "article_id");
    Single(b, FetchArticleById(articleId), Envelope(200.0, "article"))
  }

  /** `getAllArticles`: forwards `req.query.topic`, `.order` and `.sort_by`,
      in that order and untouched, and answers 200 `{ articles }`. */
  function GetAllArticles(req: Request, b: Backend): (t: Trace)
    ensures var fetch := FetchAllArticles(Get(req.query, "topic"), Get(req.query, "order"), Get(req.query, "sort_by"));
      && |t| == 2 && t[0] == Invoke(fetch) && Settled(t)
      && (b(fetch).Resolved? ==> t[1] == Send(Num(200.0), Obj(map["articles" := b(fetch).value])))
      && (b(fetch).Rejected? ==> t[1] == Next(b(fetch).reason))
  {
    var topic, order, sortBy := Get(req.query, "topic"), Get(req.query, "order"), Get(req.query, "sort_by");
    Single(b, FetchAllArticles(topic, order, sortBy), Envelope(200.0, "articles"))
  }

  /** `patchArticleById`: checks that the article exists, then edits it with
      `req.body.inc_votes` as given; the edit never runs when the check
      fails, and the 200 `{ article }` response carries the edit's result. */
  function PatchArticleById(req: Request, b: Backend): (t: Trace)
    ensures var articleId := Get(req.params, "article_id");
      var guard := FetchArticleById(articleId);
      var edit := EditArticleById(articleId, Get(req.body, "inc_votes"));
      && |t| > 1 && t[0] == Invoke(guard) && Settled(t)
      && (Invoked(t, edit) <==> b(guard).Resolved?)
      && (Invoked(t, edit) ==> t[1] == Invoke(edit))
      && (b(guard).Resolved? ==> |t| == 3)
      && (b(guard).Rejected? ==> t == [Invoke(guard), Next(b(guard).reason)])
      && (Responded(t) <==> b(guard).Resolved? && b(edit).Resolved?)
      && (Responded(t) ==> t[|t| - 1] == Send(Num(200.0), Obj(map["article" := b(edit).value])))
      && (b(guard).Resolved? && b(edit).Rejected? ==> t[|t| - 1] == Next(b(edit).reason))
  {
    var articleId := Get(req.params, "article_id");
    var incVotes := Get(req.body, "inc_votes");
    Guarded(b, FetchArticleById(articleId), EditArticleById(articleId, incVotes), Envelope(200.0, "article"))
  }

  /** Every article handler ends the request exactly once: either it
      responds, or it hands the error on to `next` and sends nothing. */
  lemma ArticleHandlersEndOnce(req: Request, b: Backend)
    ensures var ts := [GetArticleById(req, b), GetAllArticles(req, b), PatchArticleById(req, b)];
      forall i :: 0 <= i < |ts| ==> Settled(ts[i]) && Responded(ts[i]) != Forwarded(ts[i])
  {
    SettledShape(GetArticleById(req, b));
    SettledShape(GetAllArticles(req, b));
    SettledShape(PatchArticleById(req, b));
  }
}
