# nc-back-end: article models, guarded handlers and the error middleware

A Dafny model of the decision layer of a small Express/`pg` news API:

- the **article models** (`models/articles.models.js`): `fetchArticleById`,
  `fetchAllArticles` (defaults, exact allow-lists for `order` and `sort_by`,
  the SQL text and parameter list built piece by piece, empty result → 404)
  and `editArticleById` (a falsy `inc_votes` becomes 0);
- the **handlers** (`controllers/articles.controllers.js`,
  `controllers/comments.controllers.js`): promise chains of model calls that
  end in one response with a fixed status and envelope key, or in `next(err)`;
- the **error middleware** `handleCustomErrors`
  (`controllers/errors.controllers.js`).

How the model is built:

- `Js` (`js.dfy`) models JavaScript values (`undefined`, `null`, booleans,
  numbers, strings, arrays, objects), truthiness, property access,
  `Array.prototype.includes` on strings, default parameters (which apply to
  `undefined` only) and the way a promise settles (`Outcome`).
- `Db` (`db.dfy`) models the driver interface. A query is its text and its
  parameter list. The driver is a function from queries to rows or to an
  error, passed in as a parameter. A placeholder is counted by its `$` marker.
- `ArticlesModels` (`articles_models.dfy`): `fetchArticleById` is a pure
  function of the driver's answer. `fetchAllArticles` and `editArticleById`
  are methods, because the source builds the query by reassignment and
  `push`. Each method returns the query it handed to the driver (`None` when
  it rejected first) and its outcome, and is proved equal to a specification
  function. The properties are lemmas about those functions.
- `Handlers` (`handlers.dfy`) turns a handler into a trace of events: model
  calls (`Invoke`), then one of `Send`, `SendStatus` or `Next`. The model
  functions are uninterpreted; a `Backend` says how each call settles. The
  chain shapes `m().then(respond).catch(next)` (`Single`) and
  `guard().then(() => action()).then(respond).catch(next)` (`Guarded`) are
  defined and proved once. `ArticlesControllers` and `CommentsControllers`
  instantiate them per route.
- `ErrorsControllers` (`errors_controllers.dfy`) is the middleware, and
  `EndToEnd` (`end_to_end.dfy`) runs the handlers on the real article models
  and then the middleware.

Behaviour of the code worth knowing:

- `order` is matched exactly against `ASC`, `DESC`, `asc` and `desc`, so
  `'Asc'` is rejected with 400 (`OrderMatchIsExact`).
- Every falsy `inc_votes` (absent, `null`, `0`, `''`, `false`) becomes the
  delta 0.
- `handleCustomErrors` answers only errors with a truthy `status` and `msg`.
  Nothing in the repository's models or controllers maps driver error codes
  to 400 or falls back to 500, so a driver error leaves the middleware
  through `next` unchanged (`DriverErrorPassesThrough`).

## Model

| member | source | states |
|---|---|---|
| `ArticlesModels.ArticleByIdQuery` | models/articles.models.js:5-16 | the id is the one parameter, and the text has exactly one placeholder, `$1`, in the filter `WHERE articles.article_id = $1` |
| `ArticlesModels.FetchArticleById` | models/articles.models.js:4-22 | no row rejects with `{404, 'Article not found'}`; otherwise it resolves to the first row; a driver error propagates |
| `ArticlesModels.ArticlesQuery` | models/articles.models.js:25-57 | a query is built exactly when `order` and `sort_by`, after their defaults, are on their allow-lists; its parameters are `[topic]` for a truthy topic and `[]` otherwise |
| `ArticlesModels.AllArticlesOutcome` | models/articles.models.js:27-65 | a value off the allow-lists rejects with `{400, 'Bad request'}`; no rows rejects with `{404, 'Articles not found'}`; otherwise it resolves to the rows unchanged; a driver error propagates |
| `ArticlesModels.FetchAllArticles` | models/articles.models.js:25-66 | the query built step by step is the one specified (none exactly when a value is off its allow-list); the outcome is the one specified; the query handed to the driver has as many placeholders as parameters |
| `ArticlesModels.ArticlesQueryWellParameterised` | models/articles.models.js:47-57 | every issued query has as many `$` placeholders as bound parameters |
| `ArticlesModels.ArticlesQueryTopicFilter` | models/articles.models.js:51-54 | `$1` is in the text exactly when the topic is truthy, which is exactly when the parameters are `[topic]`, and then the text holds the filter ` WHERE topic = $1 `; otherwise there are no parameters |
| `ArticlesModels.ArticlesQueryOrderBy` | models/articles.models.js:56-57 | the text after `ORDER BY` is an allow-listed `sort_by`, a space and an allow-listed `order`; everything before it is fixed text |
| `ArticlesModels.TopicNeverInterpolated` | models/articles.models.js:51-53 | the topic's value never reaches the SQL text: topics of equal truthiness give the same text |
| `ArticlesModels.ArticlesQueryDefaults` | models/articles.models.js:25 | with `order` and `sort_by` undefined, the query sorts by `created_at DESC` |
| `ArticlesModels.OrderMatchIsExact` | models/articles.models.js:27-29 | `'Asc'` and `null` are rejected with 400 (the default replaces only `undefined`); `'asc'` is accepted |
| `ArticlesModels.RejectionIgnoresDriver` | models/articles.models.js:27-45 | a rejected argument settles the same whatever the driver would answer: no query is issued |
| `ArticlesModels.VoteDelta` | models/articles.models.js:69 | a falsy `inc_votes` becomes 0; a truthy one is kept as it is |
| `ArticlesModels.EditQuery` | models/articles.models.js:71-78 | the parameters are `[delta, article_id]`; the text has exactly two placeholders, `$1` in the assignment `votes = votes + $1` and `$2` in the filter `WHERE article_id = $2`, so the delta is what is added to `votes` and the id is what the update is filtered on |
| `ArticlesModels.EditTextBindings` | models/articles.models.js:73-76 | the assignment `votes = votes + $1` and the filter `WHERE article_id = $2` both occur in the update's text |
| `ArticlesModels.EditOutcome` | models/articles.models.js:79-81 | it rejects exactly when the driver does (no 404 of its own); otherwise it resolves to the first row, or to `undefined` when there is none |
| `ArticlesModels.EditArticleById` | models/articles.models.js:68-82 | the method with the reassigned delta issues the specified query and settles with the specified outcome |
| `Handlers.Single` | controllers/articles.controllers.js:9-13 | one call, then a response carrying its value or `next` with its reason, exactly once |
| `Handlers.Guarded` | controllers/articles.controllers.js:30-37 | the guard runs first; the action runs exactly when the guard resolved, once, right after it, and no other call is made; the response carries the action's value; every failure goes to `next`; exactly one terminal event |
| `Handlers.SettledShape` | controllers/comments.controllers.js:9-44 | in a settled trace every event but the last is a model call, and it ends in exactly one of a response or `next` |
| `ArticlesControllers.GetArticleById` | controllers/articles.controllers.js:7-14 | `params.article_id` is passed unchanged; success gives 200 `{article}`; failure goes to `next` |
| `ArticlesControllers.GetAllArticles` | controllers/articles.controllers.js:16-24 | `query.topic`, `query.order`, `query.sort_by` are passed unchanged and in that order; success gives 200 `{articles}` |
| `ArticlesControllers.PatchArticleById` | controllers/articles.controllers.js:26-38 | `fetchArticleById` runs before the edit, and the edit never runs if it fails and runs exactly once otherwise; `body.inc_votes` is passed unchanged; 200 `{article}` carries the edit's result |
| `ArticlesControllers.ArticleHandlersEndOnce` | controllers/articles.controllers.js:7-38 | each article handler either responds or calls `next`, never both and always one |
| `CommentsControllers.GetCommentsOnArticle` | controllers/comments.controllers.js:9-19 | the article check runs before the fetch, which never runs if it fails and is the only other call otherwise; 200 `{comments}` carries exactly what the fetch returned |
| `CommentsControllers.PostNewCommentOnArticle` | controllers/comments.controllers.js:21-32 | the article check runs before create, which never runs if it fails and runs exactly once otherwise; create receives the id, `body.username` and `body.body`; success gives 201 `{comment}` |
| `CommentsControllers.DeleteCommentById` | controllers/comments.controllers.js:34-44 | `checkCommentExists` runs before remove, which never runs if it fails and runs exactly once otherwise; success sends the bare status 204 |
| `CommentsControllers.PostIgnoresOtherBodyKeys` | controllers/comments.controllers.js:23-26 | body keys other than `username` and `body` do not change what the handler does |
| `CommentsControllers.CommentHandlersEndOnce` | controllers/comments.controllers.js:9-44 | each comment handler either responds or calls `next`, never both and always one |
| `ErrorsControllers.HandleCustomErrors` | controllers/errors.controllers.js:1-9 | it responds exactly when `status` and `msg` are both truthy, with status `err.status` and body exactly `{msg}`; otherwise it passes `err` to `next` unchanged |
| `ErrorsControllers.FalsyFieldsFallThrough` | controllers/errors.controllers.js:4-7 | status 0, an empty `msg` or a missing `status` falls through to `next` |
| `ErrorsControllers.AppErrorsAnsweredVerbatim` | controllers/errors.controllers.js:4-5 | an application error `{status, msg}` with non-zero status and non-empty message is answered verbatim |
| `EndToEnd.MissingArticleAnswered404` | models/articles.models.js:18-20 | for an id with no row, the four handlers that call `fetchArticleById` answer 404 `{msg: 'Article not found'}`; the three that guard an action with it stop after that one call and never run the action |
| `EndToEnd.BadSortAnswered400` | models/articles.models.js:27-45 | an off-list `order` or `sort_by` is answered 400 `{msg: 'Bad request'}` |
| `EndToEnd.NoMatchAnswered404` | models/articles.models.js:59-62 | an empty article list is answered 404 `{msg: 'Articles not found'}` |
| `EndToEnd.DriverErrorPassesThrough` | controllers/errors.controllers.js:6-7 | a driver error without `status` and `msg` leaves the middleware through `next`, unchanged |
| `EndToEnd.PatchAnswersUpdatedRow` | controllers/articles.controllers.js:30-36 | for an existing article, PATCH answers 200 with the row the update returned |

## Left out

- Postgres itself: joins, `count`, `GROUP BY`, row order, topic filtering and the effect of `UPDATE` are not evaluated. The driver is a parameter and its rows are uninterpreted.
- The comment models: `models/comments.models.js` defines only `fetchCommentsOnArticle`, whose effect lives in the database. The code of `createCommentOnArticle`, `removeCommentById` and `checkCommentExists` is not in that file. All four are `Call`s whose outcomes are uninterpreted.
- `app.js` route registration and its 404 'Page not found' route: this is Express's routing. The topics controller it requires is not part of this model.
- The `EndToEnd` lemmas assume that each article and comment handler is mounted on its route and that `handleCustomErrors` is installed after them as the first error middleware. The `app.js` in the repository mounts only `/api/topics` and the catch-all `'/*'` route, and installs no error middleware. As wired there, `GET /api/articles/999` is answered by the catch-all with 404 'Page not found'.
- `controllers/api.controllers.js`: file reading and logging (I/O).
- `console.log` in the middleware, and the unused `pg-format` import.
- The mapping of driver error codes to 400 and any 500 fallback: nothing in the repository's models or controllers does this.
- AppErrorsAnsweredVerbatim: a `Send(status, body)` event records the call `res.status(status).send(body)`, not what Node writes. Node refuses a status outside 100–999, which is not modelled, so the lemma holds for any truthy status as the middleware passes it on. The three errors the models raise (404, 404 and 400) are in range.
- Asynchrony: promise chains are modelled as sequences of settled outcomes, one request at a time.
- Numbers are reals. NaN and the infinities are not represented.
- Rejection values are objects (`Props`). A rejection with `undefined` or `null`, on which destructuring in the middleware would throw, is not modelled.
- `req.body` is taken to be an object. Without a JSON body parser Express leaves it `undefined`, and the destructuring would throw.
- JSON serialisation of responses: a key whose value is `undefined` (e.g. `{article: undefined}` after an update that returned no row) is kept in the modelled body, though `JSON.stringify` drops it.
- `res.sendStatus(204)` is modelled as a bare status, with no body text.
