/** The page's history state (fix-anonymous-user-frontend.js): the global list
    `userHistory` of item objects, the `config` flag and `currentUser`, and the
    operations that change them in place. Items are objects because
    `saveUserHistory` updates the very object it was given, wherever it sits
    in the list. */
module HistoryStore {
  import opened Options
  import opened HistorySync
  import opened HistoryView

  /** A history item object; `kind` is its `type` field. */
  class Item {
    var id: Option<string>
    var kind: string
    var prompt: string
    var resultImage: string
    var inputImages: Option<seq<string>>
    var createdAt: Option<int>
    var userInfo: Option<UserInfo>

    /** The item's current field values. */
    function Value(): Entry
      reads this
    {
      Entry(id, kind, prompt, resultImage, inputImages, createdAt, userInfo)
    }

    /** The object literal built from `e`. */
    constructor (e: Entry)
      ensures Value() == e
    {
      id := e.id;
      kind := e.kind;
      prompt := e.prompt;
      resultImage := e.resultImage;
      inputImages := e.inputImages;
      createdAt := e.createdAt;
      userInfo := e.userInfo;
    }
  }

  /** The current values of a list of items, in list order. */
  function Values(items: seq<Item>): (es: seq<Entry>)
    reads items
    ensures |es| == |items|
    ensures forall i :: 0 <= i < |items| ==> es[i] == items[i].Value()
  {
    seq(|items|, i reads items requires 0 <= i < |items| => items[i].Value())
  }

  /** `rows.map(item => ({...}))`: one fresh item per row, in the rows'
      order. */
  method NewItems(rows: seq<Record>) returns (items: seq<Item>)
    ensures Values(items) == ToEntries(rows)
    ensures forall k :: 0 <= k < |items| ==> fresh(items[k])
  {
    items := [];
    for i := 0 to |rows|
      invariant |items| == i
      invariant forall k :: 0 <= k < i ==> fresh(items[k]) && items[k].Value() == ToEntry(rows[k])
    {
      var item := new Item(ToEntry(rows[i]));
      items := items + [item];
    }
  }

  class Store {
    var configLoaded: bool
    var currentUser: Option<User>
    var userHistory: seq<Item>

    /** Page start: an empty history, with the configuration and the login
        state as the page found them. */
    constructor (configLoaded: bool, currentUser: Option<User>)
      ensures this.configLoaded == configLoaded && this.currentUser == currentUser
      ensures userHistory == []
    {
      this.configLoaded := configLoaded;
      this.currentUser := currentUser;
      userHistory := [];
    }

    /** The list as the renderer sees it. */
    function Snapshot(): seq<Entry>
      reads this, userHistory
    {
      Values(userHistory)
    }

    /** `renderHistory()` at the instant `now`: the display built from the
        current list, one block per item in list order. */
    method RenderHistory(now: int) returns (d: Display)
      ensures d == Render(Snapshot(), currentUser.Some?, now)
      ensures d.EmptyState? <==> userHistory == []
      ensures d.Listing? ==> forall i :: 0 <= i < |userHistory| ==>
        d.blocks[i] == BlockFor(userHistory[i].Value(), now)
    {
      d := Render(Snapshot(), currentUser.Some?, now);
    }

    /** Phase one of `saveUserHistory`: give the item a temporary id and a
        creation time where it has none, and put it at the head of the list. */
    method Stage(item: Item, now: nat, suffix: string)
      modifies this`userHistory, item`id, item`createdAt
      ensures item.Value() == Staged(old(item.Value()), now, suffix)
      ensures userHistory == [item] + old(userHistory)
    {
      if !Truthy(item.id) {
        item.id := Some(TempId(now, suffix));
      }
      if item.createdAt.None? {
        item.createdAt := Some(now);
      }
      userHistory := [item] + userHistory;
    }

    /** Phase two of `saveUserHistory`: when the configuration is loaded, save
        the item to the backend and adopt the id of the row it returns. */
    method Sync(item: Item, reply: Reply) returns (sent: Option<SaveRequest>)
      modifies item`id
      ensures var call := SaveHistoryToSupabase(configLoaded, currentUser, old(item.Value()), reply);
        sent == call.sent && item.Value() == Reconciled(old(item.Value()), call.result)
    {
      sent := None;
      if configLoaded {
        var call := SaveHistoryToSupabase(configLoaded, currentUser, item.Value(), reply);
        sent := call.sent;
        var backendData := call.result;
        if backendData.Some? && Truthy(backendData.value.id) {
          item.id := backendData.value.id;
        }
      }
    }

    /** `saveUserHistory(item)`: both phases, with the clock reading `now`, the
        random id characters `suffix` and the backend's `reply` as inputs.
        The list grows by the item at its head and keeps the earlier entries
        in order behind it; the item's own object is the only one that
        changes, so every other entry keeps its value, while an earlier
        occurrence of the same object shows its new value. */
    method SaveUserHistory(item: Item, now: nat, suffix: string, reply: Reply) returns (sent: Option<SaveRequest>)
      modifies this`userHistory, item`id, item`createdAt
      ensures userHistory == [item] + old(userHistory)
      ensures var staged := Staged(old(item.Value()), now, suffix);
        var call := SaveHistoryToSupabase(configLoaded, currentUser, staged, reply);
        sent == call.sent && item.Value() == Reconciled(staged, call.result)
      ensures forall other :: other in old(userHistory) && other != item ==> other.Value() == old(other.Value())
    {
      Stage(item, now, suffix);
      sent := Sync(item, reply);
    }

    /** `loadUserHistory()` with the backend's `reply` as input: on an ok reply
        whose `data` is an array, the list is replaced by fresh items built
        from the rows, in the rows' order; otherwise it is left as it was. */
    method LoadUserHistory(reply: Reply) returns (sent: Option<LoadRequest>)
      modifies this`userHistory
      ensures var call := LoadUserHistoryCall(configLoaded, currentUser, reply);
        && sent == call.sent
        && (call.loaded.None? ==> userHistory == old(userHistory))
        && (call.loaded.Some? ==> Snapshot() == call.loaded.value)
        && (call.loaded.Some? ==> forall i :: 0 <= i < |userHistory| ==> fresh(userHistory[i]))
    {
      sent := None;
      if !configLoaded {
        return;
      }
      sent := Some(LoadRequestFor(currentUser));
      if reply.Threw? || !reply.ok || !reply.data.Rows? {
        return;
      }
      var items := NewItems(reply.data.rows);
      userHistory := items;
    }
  }

  /** An anonymous visitor's save whose backend call throws keeps the entry
      under its temporary id; a later load whose reply is an empty array then
      replaces the list wholesale, so the unsynced entry is no longer shown. */
  method FailedAnonymousSaveThenLoad(now: nat, suffix: string)
  {
    var store := new Store(true, None);
    var item := new Item(Entry(None, "text-to-image", "a cat", "img", None, None, None));
    var sent := store.SaveUserHistory(item, now, suffix, Threw);
    assert sent.Some? && sent.value.endpoint == AnonymousSaveEndpoint;
    assert |store.userHistory| == 1 && store.userHistory[0] == item;
    assert item.id == Some(TempId(now, suffix));
    var loadSent := store.LoadUserHistory(Response(true, Rows([])));
    assert loadSent == Some(LoadRequest("/api/get-anonymous-history?simple=true", None));
    assert store.Snapshot() == [];
  }
}
