/** Currencies: the admin handlers over the currencies table and its cache in Redis. Each
    handler is one step; whether the database accepts a row, and the key it draws for it,
    are part of the step. */
module Currencies {
  import opened Redis

  const DAY := 86_400_000

  datatype Info = Info(
    enName: string, faName: string, symbol: string, contract: string, ifFiat: bool, isToken: bool)

  /** A row of the table; deleting sets a mark. */
  datatype Row = Row(id: int, status: string, info: Info, deleted: bool)

  /** A currency as requests carry it and as the cache holds it. */
  datatype Currency = Currency(id: int, status: string, info: Info)

  /** The table by canonical uuid, the cache by the text in the cache key. */
  datatype State = State(rows: map<string, Row>, cache: Store<string, Currency>)

  const EMPTY := State(map[], map[])

  /** How the server and the database read a uuid: many texts, such as one in upper case,
      name the same row, and none is a text for two rows. */
  type Canon = string -> Option<string>

  ghost predicate IsCanon(canon: Canon) {
    forall t, c {:trigger canon(t), canon(c)} :: canon(t) == Some(c) ==> canon(c) == Some(c)
  }

  datatype Event =
    | Create(at: int, hk: string, id: int, body: Currency, accepted: bool)
    | Update(at: int, text: string, body: Currency, accepted: bool)
    | Delete(at: int, text: string)
    | Load(at: int)
    | Cleanup(at: int)

  predicate LiveRow(s: State, hk: string) {
    hk in s.rows && !s.rows[hk].deleted
  }

  predicate Approved(row: Row) {
    row.status == "approved" && !row.deleted
  }

  function Merge(current: Info, update: Info): Info {
    Info(
      if update.enName != "" then update.enName else current.enName,
      if update.faName != "" then update.faName else current.faName,
      if update.symbol != "" then update.symbol else current.symbol,
      if update.contract != "" then update.contract else current.contract,
      update.ifFiat || current.ifFiat,
      update.isToken || current.isToken)
  }

  /** A row with an update over it. */
  function Edit(row: Row, update: Currency): Row {
    row.(status := if update.status != "" then update.status else row.status, info := Merge(row.info, update.info))
  }

  function CacheOf(row: Row): Currency {
    Currency(row.id, row.status, row.info)
  }

  /** The cache once LoadAndCacheCurrencies has written the entries of some rows. */
  function Written(cache: Store<string, Currency>, rows: map<string, Row>, hks: set<string>, now: int)
    : Store<string, Currency>
  {
    cache + map hk | hk in hks && hk in rows :: Entry(CacheOf(rows[hk]), At(now + DAY))
  }

  function ApprovedRows(rows: map<string, Row>): set<string> {
    set hk | hk in rows && Approved(rows[hk])
  }

  function Step(canon: Canon, s: State, e: Event): State {
    match e
    case Create(now, hk, id, body, accepted) =>
      if !accepted then s
      else State(s.rows[hk := Row(id, body.status, body.info, false)], Set(s.cache, hk, body, DAY, now))
    case Update(now, text, body, accepted) =>
      (match canon(text)
       case None => s
       case Some(hk) =>
         if !LiveRow(s, hk) || !accepted then s
         else
           var row' := Edit(s.rows[hk], body);
           State(s.rows[hk := row'],
                 Set(s.cache, text, Currency(body.id, row'.status, row'.info), DAY, now)))
    case Delete(now, text) =>
      (match canon(text)
       case None => s
       case Some(hk) =>
         if !LiveRow(s, hk) then s
         else State(s.rows[hk := s.rows[hk].(status := "deleted", deleted := true)], Del(s.cache, text)))
    case Load(now) => s.(cache := Written(s.cache, s.rows, ApprovedRows(s.rows), now))
    case Cleanup(_) => s.(cache := map[])
  }

  lemma WriteOneMore(cache: Store<string, Currency>, rows: map<string, Row>, hks: set<string>, hk: string, now: int)
    requires hk in rows
    ensures Set(Written(cache, rows, hks, now), hk, CacheOf(rows[hk]), DAY, now)
            == Written(cache, rows, hks + {hk}, now)
  {
  }

  // ---------------------------------------------------------------- the handlers

  class AdminHandler {
    const canon: Canon
    var rows: map<string, Row>
    var cache: Store<string, Currency>

    ghost function Value(): State
      reads this
    {
      State(rows, cache)
    }

    constructor (canon: Canon)
      ensures this.canon == canon && Value() == EMPTY
    {
      this.canon := canon;
      rows, cache := map[], map[];
    }

    method AddOrUpdateCurrencyInCache(now: int, hk: string, currency: Currency)
      modifies this`cache
      ensures cache == Set(old(cache), hk, currency, DAY, now)
    {
      cache := Set(cache, hk, currency, DAY, now);
    }

    method CreateCurrency(now: int, currency: Currency, generatedHk: string, generatedId: int, accepted: bool)
      modifies this
      ensures Value() == Step(canon, old(Value()), Create(now, generatedHk, generatedId, currency, accepted))
    {
      if !accepted {
        return;
      }
      rows := rows[generatedHk := Row(generatedId, currency.status, currency.info, false)];
      AddOrUpdateCurrencyInCache(now, generatedHk, currency);
    }

    method UpdateCurrency(now: int, text: string, updatedData: Currency, accepted: bool)
      modifies this
      ensures Value() == Step(canon, old(Value()), Update(now, text, updatedData, accepted))
    {
      var parsed := canon(text);
      if parsed.None? {
        return;
      }
      var hk := parsed.value;
      if !(hk in rows && !rows[hk].deleted) {
        return;
      }
      var currentStatus, currentInfo := rows[hk].status, rows[hk].info;
      if updatedData.status != "" {
        currentStatus := updatedData.status;
      }
      if updatedData.info.enName != "" {
        currentInfo := currentInfo.(enName := updatedData.info.enName);
      }
      if updatedData.info.faName != "" {
        currentInfo := currentInfo.(faName := updatedData.info.faName);
      }
      if updatedData.info.symbol != "" {
        currentInfo := currentInfo.(symbol := updatedData.info.symbol);
      }
      if updatedData.info.contract != "" {
        currentInfo := currentInfo.(contract := updatedData.info.contract);
      }
      if updatedData.info.ifFiat {
        currentInfo := currentInfo.(ifFiat := updatedData.info.ifFiat);
      }
      if updatedData.info.isToken {
        currentInfo := currentInfo.(isToken := updatedData.info.isToken);
      }
      assert rows[hk].(status := currentStatus, info := currentInfo) == Edit(rows[hk], updatedData);
      if !accepted {
        return;
      }
      rows := rows[hk := rows[hk].(status := currentStatus, info := currentInfo)];
      AddOrUpdateCurrencyInCache(now, text, Currency(updatedData.id, currentStatus, currentInfo));
    }

    method DeleteCurrency(now: int, text: string)
      modifies this
      ensures Value() == Step(canon, old(Value()), Delete(now, text))
    {
      var parsed := canon(text);
      if parsed.None? {
        return;
      }
      var hk := parsed.value;
      if hk !in rows || rows[hk].deleted {
        return;
      }
      rows := rows[hk := rows[hk].(status := "deleted", deleted := true)];
      cache := Del(cache, text);
    }

    /** The query yields the approved rows in some order. */
    method LoadAndCacheCurrencies(now: int)
      modifies this`cache
      ensures Value() == Step(canon, old(Value()), Load(now))
    {
      var left := ApprovedRows(rows);
      ghost var written: set<string> := {};
      while left != {}
        invariant written + left == ApprovedRows(rows)
        invariant cache == Written(old(cache), rows, written, now)
        decreases |left|
      {
        var hk :| hk in left;
        WriteOneMore(old(cache), rows, written, hk, now);
        AddOrUpdateCurrencyInCache(now, hk, CacheOf(rows[hk]));
        left := left - {hk};
        written := written + {hk};
      }
    }

    /** The scan yields the keys of the cache in some order. */
    method CleanupBaseDefinitions(now: int)
      modifies this`cache
      ensures Value() == Step(canon, old(Value()), Cleanup(now))
    {
      var left := cache.Keys;
      while left != {}
        invariant cache.Keys == left
        decreases |left|
      {
        var key :| key in left;
        cache := Del(cache, key);
        left := left - {key};
      }
    }
  }

  // ---------------------------------------------------------------- runs

  function After(canon: Canon, events: seq<Event>): State {
    if events == [] then EMPTY else Step(canon, After(canon, events[..|events| - 1]), events[|events| - 1])
  }

  /** Requests name their rows by the given texts; a new row gets a canonical key of its
      own. */
  ghost predicate IsRun(canon: Canon, events: seq<Event>, texts: set<string>) {
    && (forall i :: 0 <= i < |events| && (events[i].Update? || events[i].Delete?) ==> events[i].text in texts)
    && (forall i :: 0 <= i < |events| && events[i].Create? ==> canon(events[i].hk) == Some(events[i].hk))
    && (forall i, j :: 0 <= i < j < |events| && events[i].Create? && events[j].Create? ==>
          events[i].hk != events[j].hk)
  }

  /** Whatever the cache shows under a key names a live row and agrees with it. */
  ghost predicate Agrees(canon: Canon, s: State, now: int) {
    forall key :: Get(s.cache, key, now).Some? ==>
      && canon(key).Some?
      && LiveRow(s, canon(key).value)
      && Get(s.cache, key, now).value.status == s.rows[canon(key).value].status
      && Get(s.cache, key, now).value.info == s.rows[canon(key).value].info
  }

  /** The invariant, which does not depend on the time: even the entries that have run out
      agree. */
  ghost predicate CacheInv(canon: Canon, s: State) {
    && (forall hk :: hk in s.rows ==> canon(hk) == Some(hk))
    && forall key :: key in s.cache ==>
         LiveRow(s, key)
         && s.cache[key].value.status == s.rows[key].status
         && s.cache[key].value.info == s.rows[key].info
  }

  lemma CreateKeepsInv(canon: Canon, s: State, e: Event)
    requires CacheInv(canon, s) && e.Create? && canon(e.hk) == Some(e.hk)
    ensures CacheInv(canon, Step(canon, s, e))
  {
  }

  lemma UpdateKeepsInv(canon: Canon, s: State, e: Event)
    requires CacheInv(canon, s) && e.Update? && (canon(e.text) == None || canon(e.text) == Some(e.text))
    ensures CacheInv(canon, Step(canon, s, e))
  {
  }

  lemma DeleteKeepsInv(canon: Canon, s: State, e: Event)
    requires CacheInv(canon, s) && e.Delete? && (canon(e.text) == None || canon(e.text) == Some(e.text))
    ensures CacheInv(canon, Step(canon, s, e))
  {
  }

  /** A step whose request names its row canonically. */
  lemma StepKeepsInv(canon: Canon, s: State, e: Event)
    requires CacheInv(canon, s)
    requires e.Update? || e.Delete? ==> canon(e.text) == None || canon(e.text) == Some(e.text)
    requires e.Create? ==> canon(e.hk) == Some(e.hk)
    ensures CacheInv(canon, Step(canon, s, e))
  {
    match e
    case Create(_, _, _, _, _) => CreateKeepsInv(canon, s, e);
    case Update(_, _, _, _) => UpdateKeepsInv(canon, s, e);
    case Delete(_, _) => DeleteKeepsInv(canon, s, e);
    case _ =>
  }

  lemma {:induction false} CanonicalKeepsInv(canon: Canon, events: seq<Event>, texts: set<string>)
    requires IsCanon(canon) && IsRun(canon, events, texts)
    requires forall t :: t in texts ==> canon(t) == None || canon(t) == Some(t)
    ensures CacheInv(canon, After(canon, events))
  {
    if events != [] {
      CanonicalKeepsInv(canon, events[..|events| - 1], texts);
      StepKeepsInv(canon, After(canon, events[..|events| - 1]), events[|events| - 1]);
    }
  }

  /** On every run over these texts, at every time, the cache agrees with the table. */
  ghost predicate CacheSound(canon: Canon, texts: set<string>) {
    forall events: seq<Event>, now: int | IsRun(canon, events, texts) :: Agrees(canon, After(canon, events), now)
  }

  const SOME := Currency(0, "approved", Info("", "", "", "", false, false))

  /** A row deleted under another text than its own leaves its own entry in the cache. */
  lemma StaleAfterDelete(canon: Canon, text: string, hk: string)
    requires IsCanon(canon) && canon(text) == Some(hk) && text != hk
    ensures var events := [Create(0, hk, 0, SOME, true), Delete(0, text)];
            IsRun(canon, events, {text}) && !Agrees(canon, After(canon, events), 0)
  {
  }

  /** The cache agrees with the table on every run, under every interleaving of creates,
      updates, deletes, loads, cleanups and expiry, if and only if requests name rows by
      their canonical uuids alone. */
  lemma CacheSoundIff(canon: Canon, texts: set<string>)
    requires IsCanon(canon)
    ensures CacheSound(canon, texts) <==> forall t :: t in texts ==> canon(t) == None || canon(t) == Some(t)
  {
    if forall t :: t in texts ==> canon(t) == None || canon(t) == Some(t) {
      forall events: seq<Event>, now: int | IsRun(canon, events, texts)
        ensures Agrees(canon, After(canon, events), now)
      {
        CanonicalKeepsInv(canon, events, texts);
      }
    } else {
      var t :| t in texts && canon(t) != None && canon(t) != Some(t);
      var hk := canon(t).value;
      StaleAfterDelete(canon, t, hk);
      var events := [Create(0, hk, 0, SOME, true), Delete(0, t)];
      assert IsRun(canon, events, texts);
      assert !Agrees(canon, After(canon, events), 0);
    }
  }

  /** Whatever the cache held before, after a cleanup and a load it shows exactly the approved
      live rows, for a day. */
  lemma CleanupThenLoad(canon: Canon, s: State, cleaned: int, loaded: int, now: int, key: string)
    requires loaded <= now
    ensures var s' := Step(canon, Step(canon, s, Cleanup(cleaned)), Load(loaded));
            Get(s'.cache, key, now) ==
              if key in s.rows && s.rows[key].status == "approved" && !s.rows[key].deleted && now < loaded + 86_400_000
              then Some(Currency(s.rows[key].id, s.rows[key].status, s.rows[key].info)) else None
  {
  }

  /** A create and an update cache the id that came with the request: the entry is the one that
      a load would write if and only if that is the id of the row. */
  lemma WriteMatchesLoadIff(canon: Canon, s: State, e: Event, hk: string, now: int)
    requires (e.Create? && e.hk == hk) || (e.Update? && e.text == hk && canon(hk) == Some(hk) && LiveRow(s, hk))
    requires e.accepted && e.at <= now < e.at + 86_400_000
    ensures var s' := Step(canon, s, e);
            && hk in s'.rows && !s'.rows[hk].deleted
            && (var row := s'.rows[hk];
                Get(s'.cache, hk, now) == Some(Currency(row.id, row.status, row.info)) <==> e.body.id == row.id)
  {
  }

  /** What a step writes to the cache. */
  predicate Writes(canon: Canon, s: State, e: Event, hk: string) {
    match e
    case Create(_, created, _, _, accepted) => accepted && created == hk
    case Update(_, text, _, accepted) =>
      accepted && text == hk && canon(text).Some? && LiveRow(s, canon(text).value)
    case Load(_) => hk in s.rows && Approved(s.rows[hk])
    case _ => false
  }

  /** What has been written shows for a day, whatever else is created, updated and loaded,
      unless it is deleted by its name or cleaned up. */
  lemma {:induction false} WrittenShowsForADay(canon: Canon, events: seq<Event>, more: seq<Event>, hk: string, now: int)
    requires events != []
    requires Writes(canon, After(canon, events[..|events| - 1]), events[|events| - 1], hk)
    requires forall i :: 0 <= i < |more| ==>
               more[i].at >= events[|events| - 1].at && !more[i].Cleanup? && !(more[i].Delete? && more[i].text == hk)
    requires now < events[|events| - 1].at + 86_400_000
    ensures Get(After(canon, events + more).cache, hk, now).Some?
  {
    var all := events + more;
    if more == [] {
      assert all == events;
    } else {
      assert all[..|all| - 1] == events + more[..|more| - 1];
      WrittenShowsForADay(canon, events, more[..|more| - 1], hk, now);
    }
  }

  /** The row that a text names before the last event, if it is live. */
  predicate NamesLive(canon: Canon, past: seq<Event>, text: string) {
    canon(text).Some?
    && canon(text).value in After(canon, past).rows && !After(canon, past).rows[canon(text).value].deleted
  }

  function Visible(now: int, at: int, currency: Currency): Option<Currency> {
    if now < at + 86_400_000 then Some(currency) else None
  }

  /** What was last written under a key, for a day: by a load the row itself, by a create the
      request, by an update the row under the request's id; and nothing once it was deleted by
      that name or cleaned up. What the database refuses, and what names no live row, leaves
      it. */
  function LastWritten(canon: Canon, events: seq<Event>, key: string, now: int): Option<Currency> {
    if events == [] then None
    else
      var past, e := events[..|events| - 1], events[|events| - 1];
      var before := LastWritten(canon, past, key, now);
      match e
      case Create(at, hk, _, body, accepted) =>
        if accepted && hk == key then Visible(now, at, body) else before
      case Update(at, text, body, accepted) =>
        if accepted && text == key && NamesLive(canon, past, text) then
          var rows := After(canon, events).rows;
          if canon(text).value in rows then
            Visible(now, at, Currency(body.id, rows[canon(text).value].status, rows[canon(text).value].info))
          else None
        else before
      case Delete(_, text) => if text == key && NamesLive(canon, past, text) then None else before
      case Load(at) =>
        var rows := After(canon, past).rows;
        if key in rows && rows[key].status == "approved" && !rows[key].deleted then
          Visible(now, at, Currency(rows[key].id, rows[key].status, rows[key].info))
        else before
      case Cleanup(_) => None
  }

  /** Over every run, at every time and under every key the cache shows what was last written,
      for a day. */
  lemma {:induction false} CacheShows(canon: Canon, events: seq<Event>, key: string, now: int)
    ensures Get(After(canon, events).cache, key, now) == LastWritten(canon, events, key, now)
  {
    if events != [] {
      CacheShows(canon, events[..|events| - 1], key, now);
    }
  }

  /** A row is there if and only if the database accepted its creation. */
  lemma {:induction false} RowIsCreatedIff(canon: Canon, events: seq<Event>, hk: string)
    ensures hk in After(canon, events).rows <==>
              exists k :: 0 <= k < |events| && events[k].Create? && events[k].accepted && events[k].hk == hk
  {
    if events != [] {
      var past, e := events[..|events| - 1], events[|events| - 1];
      RowIsCreatedIff(canon, past, hk);
      assert forall k :: 0 <= k < |past| ==> past[k] == events[k];
      if e.Create? && e.accepted && e.hk == hk {
        assert events[|past|].hk == hk;
      }
    }
  }

  // ---------------------------------------------------------------- the life of a row

  function EditAll(row: Row, updates: seq<Currency>): Row {
    if updates == [] then row else Edit(EditAll(row, updates[..|updates| - 1]), updates[|updates| - 1])
  }

  /** The row of the k-th event has been deleted. */
  predicate Removed(canon: Canon, events: seq<Event>, k: nat)
    requires k < |events| && events[k].Create?
  {
    exists i :: k < i < |events| && events[i].Delete? && canon(events[i].text) == Some(events[k].hk)
  }

  /** The updates of that row which the database accepted, up to its deletion. */
  function Updates(canon: Canon, events: seq<Event>, k: nat): seq<Currency>
    requires k < |events| && events[k].Create?
  {
    if |events| == k + 1 then []
    else
      var past, e := events[..|events| - 1], events[|events| - 1];
      Updates(canon, past, k)
      + (if e.Update? && e.accepted && canon(e.text) == Some(events[k].hk) && !Removed(canon, past, k)
         then [e.body] else [])
  }

  /** The row of the k-th event as the later events leave it. */
  function Edited(canon: Canon, events: seq<Event>, k: nat): Row
    requires k < |events| && events[k].Create?
  {
    var row := EditAll(Row(events[k].id, events[k].body.status, events[k].body.info, false), Updates(canon, events, k));
    if Removed(canon, events, k) then row.(status := "deleted", deleted := true) else row
  }

  lemma RemovedBy(canon: Canon, events: seq<Event>, k: nat, e: Event)
    requires k < |events| && events[k].Create?
    ensures Removed(canon, events + [e], k) <==>
              Removed(canon, events, k) || (e.Delete? && canon(e.text) == Some(events[k].hk))
  {
    var more := events + [e];
    assert more[|events|] == e;
    if Removed(canon, events, k) {
      var i :| k < i < |events| && events[i].Delete? && canon(events[i].text) == Some(events[k].hk);
      assert more[i] == events[i];
    }
  }

  lemma {:induction false} EditAllKeeps(row: Row, updates: seq<Currency>)
    ensures EditAll(row, updates).deleted == row.deleted && EditAll(row, updates).id == row.id
  {
    if updates != [] {
      EditAllKeeps(row, updates[..|updates| - 1]);
    }
  }

  /** What one step does to a row that is there. */
  function RowStep(canon: Canon, row: Row, hk: string, e: Event): Row {
    if row.deleted then row
    else if e.Update? && e.accepted && canon(e.text) == Some(hk) then Edit(row, e.body)
    else if e.Delete? && canon(e.text) == Some(hk) then row.(status := "deleted", deleted := true)
    else row
  }

  lemma StepOnRow(canon: Canon, s: State, e: Event, hk: string)
    requires hk in s.rows && (e.Create? ==> e.hk != hk)
    ensures var rows := Step(canon, s, e).rows; hk in rows && rows[hk] == RowStep(canon, s.rows[hk], hk, e)
  {
  }

  lemma EditedStep(canon: Canon, events: seq<Event>, k: nat, e: Event)
    requires k < |events| && events[k].Create?
    ensures Edited(canon, events + [e], k) == RowStep(canon, Edited(canon, events, k), events[k].hk, e)
  {
    var more, updates := events + [e], Updates(canon, events, k);
    assert more[..|more| - 1] == events;
    RemovedBy(canon, events, k, e);
    EditAllKeeps(Row(events[k].id, events[k].body.status, events[k].body.info, false), updates);
    if Updates(canon, more, k) != updates {
      assert Updates(canon, more, k) == updates + [e.body];
      assert (updates + [e.body])[..|updates|] == updates;
    }
  }

  lemma RunPrefix(canon: Canon, events: seq<Event>, texts: set<string>, k: nat)
    requires IsRun(canon, events, texts) && k + 1 < |events| && events[k].Create?
    ensures IsRun(canon, events[..|events| - 1], texts)
    ensures var e := events[|events| - 1]; e.Create? ==> e.hk != events[k].hk
  {
  }

  lemma {:induction false} RowIsEdited(canon: Canon, events: seq<Event>, texts: set<string>, k: nat)
    requires IsRun(canon, events, texts) && k < |events| && events[k].Create? && events[k].accepted
    ensures var rows := After(canon, events).rows;
            events[k].hk in rows && rows[events[k].hk] == Edited(canon, events, k)
  {
    var past, e := events[..|events| - 1], events[|events| - 1];
    if |events| == k + 1 {
      assert After(canon, events) == Step(canon, After(canon, past), e);
      assert Updates(canon, events, k) == [] && !Removed(canon, events, k);
    } else {
      RunPrefix(canon, events, texts, k);
      RowIsEdited(canon, past, texts, k);
      StepOnRow(canon, After(canon, past), e, events[k].hk);
      EditedStep(canon, past, k, e);
      assert past + [e] == events;
    }
  }

  /** The last of the texts that is not empty, or the text from before. */
  ghost predicate LastNonEmpty(result: string, before: string, texts: seq<string>) {
    || (result == before && forall i :: 0 <= i < |texts| ==> texts[i] == "")
    || exists i :: 0 <= i < |texts| && texts[i] != "" && result == texts[i]
                   && forall j :: i < j < |texts| ==> texts[j] == ""
  }

  function Field(updates: seq<Currency>, field: Currency -> string): seq<string> {
    seq(|updates|, i requires 0 <= i < |updates| => field(updates[i]))
  }

  function Statuses(): Currency -> string { (c: Currency) => c.status }
  function EnNames(): Currency -> string { (c: Currency) => c.info.enName }
  function FaNames(): Currency -> string { (c: Currency) => c.info.faName }
  function Symbols(): Currency -> string { (c: Currency) => c.info.symbol }
  function Contracts(): Currency -> string { (c: Currency) => c.info.contract }

  lemma LastOfMore(result: string, before: string, texts: seq<string>, text: string)
    requires LastNonEmpty(result, before, texts)
    ensures LastNonEmpty(if text != "" then text else result, before, texts + [text])
  {
    var more := texts + [text];
    if text != "" {
      assert more[|texts|] == text;
    } else if exists i :: 0 <= i < |texts| && texts[i] != "" && result == texts[i]
                          && forall j :: i < j < |texts| ==> texts[j] == "" {
      var i :| 0 <= i < |texts| && texts[i] != "" && result == texts[i]
               && forall j :: i < j < |texts| ==> texts[j] == "";
      assert more[i] == texts[i];
    }
  }

  lemma {:induction false} FieldIsLastNonEmpty(row: Row, updates: seq<Currency>, field: Currency -> string)
    requires forall r, u :: field(CacheOf(Edit(r, u))) == if field(u) != "" then field(u) else field(CacheOf(r))
    ensures LastNonEmpty(field(CacheOf(EditAll(row, updates))), field(CacheOf(row)), Field(updates, field))
  {
    if updates != [] {
      var most, last := updates[..|updates| - 1], updates[|updates| - 1];
      FieldIsLastNonEmpty(row, most, field);
      assert Field(updates, field) == Field(most, field) + [field(last)];
      LastOfMore(field(CacheOf(EditAll(row, most))), field(CacheOf(row)), Field(most, field), field(last));
    }
  }

  lemma {:induction false} FlagsAccumulate(row: Row, updates: seq<Currency>)
    ensures var r := EditAll(row, updates).info;
            && (r.ifFiat <==> row.info.ifFiat || exists i :: 0 <= i < |updates| && updates[i].info.ifFiat)
            && (r.isToken <==> row.info.isToken || exists i :: 0 <= i < |updates| && updates[i].info.isToken)
  {
    if updates != [] {
      var most := updates[..|updates| - 1];
      FlagsAccumulate(row, most);
      assert forall i :: 0 <= i < |most| ==> updates[i] == most[i];
    }
  }

  /** Over every run a row keeps its id; it is deleted for good once a delete named it, under
      whatever text; each of its texts is the last non-empty one among those it was created and
      updated with, and a flag stays set once it has been set: no update can clear either. */
  lemma RowOfUpdates(canon: Canon, events: seq<Event>, texts: set<string>, k: nat)
    requires IsRun(canon, events, texts) && k < |events| && events[k].Create? && events[k].accepted
    ensures events[k].hk in After(canon, events).rows
    ensures var row, was := After(canon, events).rows[events[k].hk], events[k].body;
            var updates := Updates(canon, events, k);
            && row.id == events[k].id && (row.deleted <==> Removed(canon, events, k))
            && (if row.deleted then row.status == "deleted"
                else LastNonEmpty(row.status, was.status, Field(updates, Statuses())))
            && LastNonEmpty(row.info.enName, was.info.enName, Field(updates, EnNames()))
            && LastNonEmpty(row.info.faName, was.info.faName, Field(updates, FaNames()))
            && LastNonEmpty(row.info.symbol, was.info.symbol, Field(updates, Symbols()))
            && LastNonEmpty(row.info.contract, was.info.contract, Field(updates, Contracts()))
            && (row.info.ifFiat <==> was.info.ifFiat || exists i :: 0 <= i < |updates| && updates[i].info.ifFiat)
            && (row.info.isToken <==> was.info.isToken || exists i :: 0 <= i < |updates| && updates[i].info.isToken)
  {
    var row := Row(events[k].id, events[k].body.status, events[k].body.info, false);
    var updates := Updates(canon, events, k);
    RowIsEdited(canon, events, texts, k);
    EditAllKeeps(row, updates);
    FieldIsLastNonEmpty(row, updates, Statuses());
    FieldIsLastNonEmpty(row, updates, EnNames());
    FieldIsLastNonEmpty(row, updates, FaNames());
    FieldIsLastNonEmpty(row, updates, Symbols());
    FieldIsLastNonEmpty(row, updates, Contracts());
    FlagsAccumulate(row, updates);
  }
}
