/** The pure part of the front-end history synchronisation
    (fix-anonymous-user-frontend.js): history entries and stored records, the
    request `saveHistoryToSupabase` and `loadUserHistory` send, how their
    replies are read, and the two changes `saveUserHistory` makes to an entry
    (staging and id reconciliation), stated on values. The in-place updates
    themselves are in module HistoryStore.

    Times are milliseconds since the epoch: an ISO-8601 `createdAt` string is
    represented by the instant it denotes. */
module HistorySync {
  import opened Options
  import Decimal

  /** The logged-in user (`currentUser`); only its id is read here. */
  datatype User = User(id: string)

  /** The display-only identity attached to an entry. */
  datatype UserInfo = UserInfo(name: string, email: string, avatar: Option<string>)

  /** One element of `userHistory`. `kind` is the JavaScript `type` field. */
  datatype Entry = Entry(
    id: Option<string>,
    kind: string,
    prompt: string,
    resultImage: string,
    inputImages: Option<seq<string>>,
    createdAt: Option<int>,
    userInfo: Option<UserInfo>)

  /** One row as the history endpoints return it (snake_case fields). */
  datatype Record = Record(
    id: Option<string>,
    kind: string,
    prompt: string,
    resultImage: string,
    inputImages: Option<seq<string>>,
    createdAt: Option<int>,
    userName: Option<string>,
    userEmail: Option<string>,
    userAvatar: Option<string>)

  /** JavaScript truthiness of an optional string. */
  predicate Truthy(s: Option<string>) {
    s.Some? && s.value != ""
  }

  /** `s || fallback` for an optional string. */
  function OrElse(s: Option<string>, fallback: string): (r: string)
    ensures Truthy(s) ==> r == s.value
    ensures !Truthy(s) ==> r == fallback
  {
    if Truthy(s) then s.value else fallback
  }

  /** The `data` field of a reply: absent or falsy, a truthy value that is not
      an array (and has no element `0`), or an array of rows. */
  datatype Data = Missing | NotArray | Rows(rows: seq<Record>)

  /** What awaiting `fetch` and `response.json()` produced: an exception, or
      a parsed reply with the response's `ok` flag. */
  datatype Reply = Threw | Response(ok: bool, data: Data)

  // ---------------------------------------------------------------- saving

  const OwnedSaveEndpoint := "/api/user-history-unified"
  const AnonymousSaveEndpoint := "/api/save-anonymous-history"

  /** The JSON body of a save request; `None` fields are left out of it. */
  datatype SaveBody = SaveBody(
    kind: string,
    prompt: string,
    resultImage: string,
    inputImages: Option<seq<string>>,
    userId: Option<string>)

  /** A POST to `endpoint`; `userIdHeader` is the `user-id` header. */
  datatype SaveRequest = SaveRequest(endpoint: string, userIdHeader: Option<string>, body: SaveBody)

  /** The request `saveHistoryToSupabase` sends for entry `e`: owned when a
      user is logged in, anonymous otherwise. */
  function SaveRequestFor(user: Option<User>, e: Entry): (req: SaveRequest)
    ensures user.Some? ==>
      && req.endpoint == OwnedSaveEndpoint
      && req.userIdHeader == Some(user.value.id)
      && req.body.userId == Some(user.value.id)
    ensures user.None? ==>
      && req.endpoint == AnonymousSaveEndpoint
      && req.userIdHeader.None?
      && req.body.userId.None?
    ensures req.body.kind == e.kind && req.body.prompt == e.prompt
    ensures req.body.resultImage == e.resultImage && req.body.inputImages == e.inputImages
  {
    match user
    case Some(u) =>
      SaveRequest(OwnedSaveEndpoint, Some(u.id),
        SaveBody(e.kind, e.prompt, e.resultImage, e.inputImages, Some(u.id)))
    case None =>
      SaveRequest(AnonymousSaveEndpoint, None,
        SaveBody(e.kind, e.prompt, e.resultImage, e.inputImages, None))
  }

  /** The local id, creation time and user info never leave the client: two
      entries that agree on the four sent fields give the same request. */
  lemma SaveRequestIgnoresLocalFields(user: Option<User>, e: Entry, e': Entry)
    requires e.kind == e'.kind && e.prompt == e'.prompt
    requires e.resultImage == e'.resultImage && e.inputImages == e'.inputImages
    ensures SaveRequestFor(user, e) == SaveRequestFor(user, e')
  {
  }

  /** The request made (if any) and the value returned (`None` for `false`). */
  datatype SaveCall = SaveCall(sent: Option<SaveRequest>, result: Option<Record>)

  /** `saveHistoryToSupabase(e)` given the globals and the reply it receives. */
  function SaveHistoryToSupabase(configLoaded: bool, user: Option<User>, e: Entry, reply: Reply): (call: SaveCall)
    ensures call.sent.Some? <==> configLoaded
    ensures call.sent.Some? ==> call.sent.value == SaveRequestFor(user, e)
    ensures call.result.Some? <==>
      configLoaded && reply.Response? && reply.ok && reply.data.Rows? && |reply.data.rows| > 0
    ensures call.result.Some? ==> call.result.value == reply.data.rows[0]
  {
    if !configLoaded then SaveCall(None, None)
    else
      var req := Some(SaveRequestFor(user, e));
      match reply
      case Threw => SaveCall(req, None)
      case Response(ok, data) =>
        if !ok then SaveCall(req, None)
        else if data.Rows? && |data.rows| > 0 then SaveCall(req, Some(data.rows[0]))
        else SaveCall(req, None)
  }

  // --------------------------------------------------------------- loading

  /** A GET of `url`; `userIdHeader` is the `user-id` header. */
  datatype LoadRequest = LoadRequest(url: string, userIdHeader: Option<string>)

  /** The request `loadUserHistory` sends. */
  function LoadRequestFor(user: Option<User>): (req: LoadRequest)
    ensures user.Some? ==>
      && req.url == "/api/user-history-unified?user_id=" + user.value.id + "&simple=true"
      && req.userIdHeader == Some(user.value.id)
    ensures user.None? ==>
      req == LoadRequest("/api/get-anonymous-history?simple=true", None)
  {
    match user
    case Some(u) => LoadRequest("/api/user-history-unified?user_id=" + u.id + "&simple=true", Some(u.id))
    case None => LoadRequest("/api/get-anonymous-history?simple=true", None)
  }

  const DefaultName := "Anonymous User"
  const DefaultEmail := "Not logged in"

  /** The display entry built from one stored row. */
  function ToEntry(r: Record): (e: Entry)
    ensures e.id == r.id && e.kind == r.kind && e.prompt == r.prompt
    ensures e.resultImage == r.resultImage && e.inputImages == r.inputImages
    ensures e.createdAt == r.createdAt
    ensures e.userInfo.Some?
    ensures e.userInfo.value.name == (if Truthy(r.userName) then r.userName.value else DefaultName)
    ensures e.userInfo.value.email == (if Truthy(r.userEmail) then r.userEmail.value else DefaultEmail)
    ensures e.userInfo.value.avatar == (if Truthy(r.userAvatar) then r.userAvatar else None)
  {
    Entry(r.id, r.kind, r.prompt, r.resultImage, r.inputImages, r.createdAt,
      Some(UserInfo(OrElse(r.userName, DefaultName), OrElse(r.userEmail, DefaultEmail),
        if Truthy(r.userAvatar) then r.userAvatar else None)))
  }

  /** `result.data.map(...)`: one entry per row, in the rows' order. */
  function ToEntries(rows: seq<Record>): (es: seq<Entry>)
    ensures |es| == |rows|
    ensures forall i :: 0 <= i < |rows| ==> es[i] == ToEntry(rows[i])
  {
    seq(|rows|, i requires 0 <= i < |rows| => ToEntry(rows[i]))
  }

  /** Loading keeps each row's id and position: the ids of the new list are
      the ids of the rows, in order. */
  lemma ToEntriesKeepsIds(rows: seq<Record>, i: nat)
    requires i < |rows|
    ensures ToEntries(rows)[i].id == rows[i].id
    ensures forall j :: 0 <= j < |rows| && j != i && rows[j].id != rows[i].id ==>
      ToEntries(rows)[j].id != ToEntries(rows)[i].id
  {
  }

  /** The request made (if any) and the replacement list (`None`: keep the
      current list). */
  datatype LoadCall = LoadCall(sent: Option<LoadRequest>, loaded: Option<seq<Entry>>)

  /** `loadUserHistory()` given the globals and the reply it receives. */
  function LoadUserHistoryCall(configLoaded: bool, user: Option<User>, reply: Reply): (call: LoadCall)
    ensures call.sent.Some? <==> configLoaded
    ensures call.sent.Some? ==> call.sent.value == LoadRequestFor(user)
    ensures call.loaded.Some? <==> configLoaded && reply.Response? && reply.ok && reply.data.Rows?
    ensures call.loaded.Some? ==> call.loaded.value == ToEntries(reply.data.rows)
  {
    if !configLoaded then LoadCall(None, None)
    else
      var req := Some(LoadRequestFor(user));
      match reply
      case Threw => LoadCall(req, None)
      case Response(ok, data) =>
        if ok && data.Rows? then LoadCall(req, Some(ToEntries(data.rows)))
        else LoadCall(req, None)
  }

  // ------------------------------------------- staging and reconciliation

  const TempPrefix := "temp_"

  /** `'temp_' + Date.now() + '_' + suffix`, where `suffix` stands for the
      random base-36 characters. */
  function TempId(now: nat, suffix: string): (id: string)
    ensures |id| > |TempPrefix| && id[..|TempPrefix|] == TempPrefix
    ensures id[|TempPrefix|..] == Decimal.Show(now) + "_" + suffix
  {
    TempPrefix + Decimal.Show(now) + "_" + suffix
  }

  /** Phase one of `saveUserHistory` on the entry: a missing (falsy) id gets a
      temporary one, a missing creation time gets `now`. */
  function Staged(e: Entry, now: nat, suffix: string): (s: Entry)
    ensures Truthy(s.id)
    ensures Truthy(e.id) ==> s.id == e.id
    ensures !Truthy(e.id) ==> s.id == Some(TempId(now, suffix))
    ensures s.createdAt.Some?
    ensures e.createdAt.Some? ==> s.createdAt == e.createdAt
    ensures e.createdAt.None? ==> s.createdAt == Some(now)
    ensures s.(id := e.id, createdAt := e.createdAt) == e
  {
    var id := if Truthy(e.id) then e.id else Some(TempId(now, suffix));
    var createdAt := if e.createdAt.Some? then e.createdAt else Some(now);
    e.(id := id, createdAt := createdAt)
  }

  /** Staging an entry that already has an id and a creation time leaves it
      as it is, so staging twice is staging once. */
  lemma StagedIdempotent(e: Entry, now: nat, suffix: string, now': nat, suffix': string)
    ensures Staged(Staged(e, now, suffix), now', suffix') == Staged(e, now, suffix)
  {
  }

  /** Phase two on the entry: the backend's id replaces the local one when the
      save returned a row with a truthy id; otherwise nothing changes. */
  function Reconciled(e: Entry, result: Option<Record>): (r: Entry)
    ensures result.Some? && Truthy(result.value.id) ==> r.id == result.value.id
    ensures !(result.Some? && Truthy(result.value.id)) ==> r == e
    ensures r.(id := e.id) == e
  {
    if result.Some? && Truthy(result.value.id) then e.(id := result.value.id) else e
  }

  /** A failed save (no config, a failing status, no row, an exception) keeps
      the staged entry, temporary id included. */
  lemma FailedSaveKeepsEntry(configLoaded: bool, user: Option<User>, e: Entry, reply: Reply)
    requires !configLoaded || reply.Threw? || !reply.ok || !reply.data.Rows? || reply.data.rows == []
    ensures Reconciled(e, SaveHistoryToSupabase(configLoaded, user, e, reply).result) == e
  {
  }
}
