/**
 * The process-wide holder of the auto-download registry: it loads the
 * registry once, reconciles it with each new configuration, and tells its
 * remove listeners which items a reconciliation dropped.
 */
module Holder {
  import opened Wrappers
  import opened AutoRecords

  /** A registered remove listener, identified by the order it registered in. */
  type ListenerId = nat

  /** One call of a remove listener, with the list it received. */
  datatype Notification = Notification(listener: ListenerId, removed: seq<Item>)

  /**
   * The outcome of reading the stored setting: the read failed, or it
   * succeeded with a null setting or with a list of items.
   */
  datatype LoadResult = LoadFailed | Loaded(setting: Option<seq<Item>>)

  /**
   * The account of `telegramId` exists and is authorised; `accounts` maps
   * each known account to its authorised flag, a missing key is an account
   * that is not found.
   */
  predicate Authorized(accounts: map<int, bool>, telegramId: int)
    ensures telegramId !in accounts ==> !Authorized(accounts, telegramId)
    ensures telegramId in accounts ==> (Authorized(accounts, telegramId) <==> accounts[telegramId])
  {
    telegramId in accounts && accounts[telegramId]
  }

  /** One pass of the reconcile loop: an unknown key of an authorised account is added. */
  function AdmitOne(held: seq<Item>, x: Item, accounts: map<int, bool>): (r: seq<Item>)
    ensures !HasKey(held, x.telegramId, x.chatId) && Authorized(accounts, x.telegramId) ==> r == held + [x]
    ensures HasKey(held, x.telegramId, x.chatId) || !Authorized(accounts, x.telegramId) ==> r == held
  {
    if !HasKey(held, x.telegramId, x.chatId) && Authorized(accounts, x.telegramId) then
      WithoutAbsentKey(held, x.telegramId, x.chatId);
      AddReplacing(held, x)
    else held
  }

  /** The held list after the reconcile loop has visited every incoming item, in order. */
  function Admit(held: seq<Item>, incoming: seq<Item>, accounts: map<int, bool>): (r: seq<Item>)
    ensures |held| <= |r| && r[..|held|] == held
    ensures |r| <= |held| + |incoming|
  {
    if incoming == [] then held
    else AdmitOne(Admit(held, incoming[..|incoming| - 1], accounts), incoming[|incoming| - 1], accounts)
  }

  /** The items `removeIf` keeps: those whose key is still configured, in order. */
  function Retained(held: seq<Item>, incoming: seq<Item>): (r: seq<Item>)
    ensures forall x :: x in r <==> x in held && HasKey(incoming, x.telegramId, x.chatId)
  {
    if held == [] then []
    else
      var init := held[..|held| - 1];
      var x := held[|held| - 1];
      assert held == init + [x];
      if HasKey(incoming, x.telegramId, x.chatId) then Retained(init, incoming) + [x]
      else Retained(init, incoming)
  }

  /** The items `removeIf` drops and reports: those whose key is gone, in order. */
  function Dropped(held: seq<Item>, incoming: seq<Item>): (r: seq<Item>)
    ensures forall x :: x in r <==> x in held && !HasKey(incoming, x.telegramId, x.chatId)
  {
    if held == [] then []
    else
      var init := held[..|held| - 1];
      var x := held[|held| - 1];
      assert held == init + [x];
      if HasKey(incoming, x.telegramId, x.chatId) then Dropped(init, incoming)
      else Dropped(init, incoming) + [x]
  }

  /** The listener calls made for a non-empty removed list: each listener once, in order. */
  function Calls(listeners: seq<ListenerId>, removed: seq<Item>): seq<Notification>
  {
    seq(|listeners|, i requires 0 <= i < |listeners| => Notification(listeners[i], removed))
  }

  /** The list `init` builds: each authorised stored item is added with the replacing `add`. */
  function AddAuthorized(held: seq<Item>, items: seq<Item>, accounts: map<int, bool>): (r: seq<Item>)
    ensures forall x :: x in r ==> x in held || (x in items && Authorized(accounts, x.telegramId))
    ensures forall x :: x in items && Authorized(accounts, x.telegramId) ==> HasKey(r, x.telegramId, x.chatId)
  {
    if items == [] then held
    else
      var init := items[..|items| - 1];
      var prev := AddAuthorized(held, init, accounts);
      var x := items[|items| - 1];
      assert items == init + [x];
      if Authorized(accounts, x.telegramId) then
        var r := AddReplacing(prev, x);
        assert forall y :: y in items && Authorized(accounts, y.telegramId) ==> HasKey(r, y.telegramId, y.chatId) by {
          forall y | y in items && Authorized(accounts, y.telegramId)
            ensures HasKey(r, y.telegramId, y.chatId)
          {
            if SameKey(y, x) {
              HasKeyOfMember(r, x);
            } else {
              assert y in init;
              var i :| 0 <= i < |prev| && HasKeyAt(prev, i, y.telegramId, y.chatId);
              assert prev[i] in r;
              HasKeyOfMember(r, prev[i]);
            }
          }
        }
        r
      else prev
  }

  lemma {:induction false} WithoutAbsentKey(items: seq<Item>, t: int, c: int)
    requires !HasKey(items, t, c)
    ensures WithoutKey(items, t, c) == items
  {
    if items != [] {
      assert !HasKeyAt(items, 0, t, c);
      WithoutAbsentKey(items[1..], t, c);
    }
  }

  lemma HasKeyAppend(a: seq<Item>, b: seq<Item>, t: int, c: int)
    ensures HasKey(a + b, t, c) <==> HasKey(a, t, c) || HasKey(b, t, c)
  {
    var ab := a + b;
    if HasKey(ab, t, c) {
      var i :| 0 <= i < |ab| && HasKeyAt(ab, i, t, c);
      if i < |a| { assert HasKeyAt(a, i, t, c); } else { assert HasKeyAt(b, i - |a|, t, c); }
    }
    if HasKey(a, t, c) {
      var i :| 0 <= i < |a| && HasKeyAt(a, i, t, c);
      assert HasKeyAt(ab, i, t, c);
    }
    if HasKey(b, t, c) {
      var i :| 0 <= i < |b| && HasKeyAt(b, i, t, c);
      assert HasKeyAt(ab, |a| + i, t, c);
    }
  }

  lemma HasKeyOfMember(items: seq<Item>, x: Item)
    requires x in items
    ensures HasKey(items, x.telegramId, x.chatId)
  {
    var i :| 0 <= i < |items| && items[i] == x;
    assert HasKeyAt(items, i, x.telegramId, x.chatId);
  }

  /**
   * The reconcile loop keeps every held item as it was, in place, and only
   * appends: each appended item is an incoming item of an authorised
   * account whose key was held by no earlier item.
   */
  lemma {:induction false} AdmitOnlyAppends(held: seq<Item>, incoming: seq<Item>, accounts: map<int, bool>)
    ensures var r := Admit(held, incoming, accounts);
      |held| <= |r| && r[..|held|] == held &&
      forall k :: |held| <= k < |r| ==>
        r[k] in incoming && Authorized(accounts, r[k].telegramId) &&
        !HasKey(r[..k], r[k].telegramId, r[k].chatId)
  {
    if incoming != [] {
      var init := incoming[..|incoming| - 1];
      var x := incoming[|incoming| - 1];
      AdmitOnlyAppends(held, init, accounts);
      var prev := Admit(held, init, accounts);
      var r := Admit(held, incoming, accounts);
      if !HasKey(prev, x.telegramId, x.chatId) && Authorized(accounts, x.telegramId) {
        WithoutAbsentKey(prev, x.telegramId, x.chatId);
        assert r == prev + [x];
        assert r[..|prev|] == prev;
        forall k | |held| <= k < |r|
          ensures r[k] in incoming && Authorized(accounts, r[k].telegramId) &&
                  !HasKey(r[..k], r[k].telegramId, r[k].chatId)
        {
          if k < |prev| {
            assert r[k] == prev[k] && r[..k] == prev[..k];
            assert prev[k] in init;
          }
        }
      } else {
        assert r == prev;
        forall k | |held| <= k < |r| ensures r[k] in incoming {
          assert r[k] in init;
        }
      }
    }
  }

  /** An incoming item of an authorised account always ends up with its key held. */
  lemma {:induction false} AdmitCoversAuthorized(held: seq<Item>, incoming: seq<Item>, accounts: map<int, bool>, x: Item)
    requires x in incoming && Authorized(accounts, x.telegramId)
    ensures HasKey(Admit(held, incoming, accounts), x.telegramId, x.chatId)
  {
    var init := incoming[..|incoming| - 1];
    var last := incoming[|incoming| - 1];
    var prev := Admit(held, init, accounts);
    var r := Admit(held, incoming, accounts);
    AdmitOnlyAppends(held, incoming, accounts);
    AdmitOnlyAppends(held, init, accounts);
    if x == last {
      if !HasKey(prev, x.telegramId, x.chatId) {
        WithoutAbsentKey(prev, x.telegramId, x.chatId);
        assert r == prev + [x];
        HasKeyOfMember(r, x);
      } else {
        assert r == prev;
      }
    } else {
      assert incoming == init + [last];
      assert x in init;
      AdmitCoversAuthorized(held, init, accounts, x);
      if !HasKey(prev, last.telegramId, last.chatId) && Authorized(accounts, last.telegramId) {
        WithoutAbsentKey(prev, last.telegramId, last.chatId);
        assert r == prev + [last];
        HasKeyAppend(prev, [last], x.telegramId, x.chatId);
      }
    }
  }

  lemma {:induction false} DroppedAppend(a: seq<Item>, b: seq<Item>, incoming: seq<Item>)
    ensures Dropped(a + b, incoming) == Dropped(a, incoming) + Dropped(b, incoming)
  {
    if b == [] {
      assert a + b == a;
    } else {
      var binit := b[..|b| - 1];
      assert (a + b)[..|a + b| - 1] == a + binit;
      assert (a + b)[|a + b| - 1] == b[|b| - 1];
      DroppedAppend(a, binit, incoming);
    }
  }

  lemma {:induction false} DroppedOfConfigured(items: seq<Item>, incoming: seq<Item>)
    requires forall x :: x in items ==> x in incoming
    ensures Dropped(items, incoming) == []
  {
    if items != [] {
      var init := items[..|items| - 1];
      HasKeyOfMember(incoming, items[|items| - 1]);
      DroppedOfConfigured(init, incoming);
    }
  }

  /**
   * The removed list is exactly the previously held items whose key is no
   * longer configured, in held order: items the reconcile loop just added
   * are never reported.
   */
  lemma DroppedIgnoresAdmitted(held: seq<Item>, incoming: seq<Item>, accounts: map<int, bool>)
    ensures Dropped(Admit(held, incoming, accounts), incoming) == Dropped(held, incoming)
  {
    var r := Admit(held, incoming, accounts);
    AdmitOnlyAppends(held, incoming, accounts);
    var added := r[|held|..];
    assert r == held + added;
    forall x | x in added ensures x in incoming {
      var k :| 0 <= k < |added| && added[k] == x;
      assert r[|held| + k] == x;
    }
    DroppedAppend(held, added, incoming);
    DroppedOfConfigured(added, incoming);
  }

  /** A held item whose key is still configured survives reconciliation unchanged. */
  lemma RetainedKeepsHeld(held: seq<Item>, incoming: seq<Item>, accounts: map<int, bool>, x: Item)
    requires x in held && HasKey(incoming, x.telegramId, x.chatId)
    ensures x in Retained(Admit(held, incoming, accounts), incoming)
  {
    var r := Admit(held, incoming, accounts);
    AdmitOnlyAppends(held, incoming, accounts);
    var i :| 0 <= i < |held| && held[i] == x;
    assert r[i] == x;
  }

  lemma {:induction false} RetainedUnique(held: seq<Item>, incoming: seq<Item>)
    requires KeysUnique(held)
    ensures KeysUnique(Retained(held, incoming))
  {
    if held != [] {
      var init := held[..|held| - 1];
      var x := held[|held| - 1];
      assert KeysUnique(init) by {
        forall i, j | 0 <= i < j < |init| ensures !SameKey(init[i], init[j]) {
          assert init[i] == held[i] && init[j] == held[j];
        }
      }
      RetainedUnique(init, incoming);
      var w := Retained(init, incoming);
      if HasKey(incoming, x.telegramId, x.chatId) {
        var r := w + [x];
        forall i, j | 0 <= i < j < |r| ensures !SameKey(r[i], r[j]) {
          if j == |r| - 1 {
            assert r[i] == w[i] && w[i] in init;
            var k :| 0 <= k < |init| && init[k] == w[i];
            assert held[k] == init[k];
          } else {
            assert r[i] == w[i] && r[j] == w[j];
          }
        }
      }
    }
  }

  lemma {:induction false} AdmitUnique(held: seq<Item>, incoming: seq<Item>, accounts: map<int, bool>)
    requires KeysUnique(held)
    ensures KeysUnique(Admit(held, incoming, accounts))
  {
    if incoming != [] {
      var init := incoming[..|incoming| - 1];
      AdmitUnique(held, init, accounts);
      var prev := Admit(held, init, accounts);
      var x := incoming[|incoming| - 1];
      if !HasKey(prev, x.telegramId, x.chatId) && Authorized(accounts, x.telegramId) {
        AddReplacingKeepsKeysUnique(prev, x);
      }
    }
  }

  /** Reconciliation keeps the registry's keys unique. */
  lemma ReconcileKeepsKeysUnique(held: seq<Item>, incoming: seq<Item>, accounts: map<int, bool>)
    requires KeysUnique(held)
    ensures KeysUnique(Retained(Admit(held, incoming, accounts), incoming))
  {
    AdmitUnique(held, incoming, accounts);
    RetainedUnique(Admit(held, incoming, accounts), incoming);
  }

  /** Loading the stored setting keeps keys unique, and admits only authorised stored items. */
  lemma {:induction false} AddAuthorizedProperties(held: seq<Item>, items: seq<Item>, accounts: map<int, bool>)
    ensures KeysUnique(held) ==> KeysUnique(AddAuthorized(held, items, accounts))
    ensures forall x :: x in AddAuthorized(held, items, accounts) ==>
      x in held || (x in items && Authorized(accounts, x.telegramId))
  {
    if items != [] {
      var init := items[..|items| - 1];
      var x := items[|items| - 1];
      AddAuthorizedProperties(held, init, accounts);
      var prev := AddAuthorized(held, init, accounts);
      if Authorized(accounts, x.telegramId) {
        if KeysUnique(held) {
          AddReplacingKeepsKeysUnique(prev, x);
        }
      }
      assert forall y :: y in init ==> y in items;
    }
  }

  class AutoRecordsHolder {
    const autoRecords: SettingAutoRecords
    var listeners: seq<ListenerId>
    /** Every remove-listener call made so far, in order. */
    var notified: seq<Notification>
    var initialized: bool

    constructor ()
      ensures fresh(autoRecords) && autoRecords.items == []
      ensures listeners == [] && notified == [] && !initialized
    {
      autoRecords := new SettingAutoRecords();
      listeners := [];
      notified := [];
      initialized := false;
    }

    method RegisterOnRemoveListener(listener: ListenerId)
      modifies this
      ensures listeners == old(listeners) + [listener]
      ensures notified == old(notified) && initialized == old(initialized)
    {
      listeners := listeners + [listener];
    }

    /**
     * Load the stored registry once. An already initialised holder is left
     * alone; a failed read leaves it uninitialised; a successful read marks
     * it initialised and adds each stored item of an authorised account.
     */
    method Init(loaded: LoadResult, accounts: map<int, bool>)
      modifies this, autoRecords
      ensures old(initialized) ==> initialized && autoRecords.items == old(autoRecords.items)
      ensures !old(initialized) ==> initialized == loaded.Loaded?
      ensures !old(initialized) && loaded.Loaded? && loaded.setting.Some? ==>
        autoRecords.items == AddAuthorized(old(autoRecords.items), loaded.setting.value, accounts)
      ensures !old(initialized) && (loaded.LoadFailed? || loaded.setting.None?) ==>
        autoRecords.items == old(autoRecords.items)
      ensures listeners == old(listeners) && notified == old(notified)
    {
      if initialized {
        return;
      }
      if loaded.LoadFailed? {
        return;
      }
      initialized := true;
      if loaded.setting.None? {
        return;
      }
      var items := loaded.setting.value;
      var i := 0;
      while i < |items|
        invariant 0 <= i <= |items|
        invariant autoRecords.items == AddAuthorized(old(autoRecords.items), items[..i], accounts)
        invariant initialized && listeners == old(listeners) && notified == old(notified)
      {
        assert items[..i + 1][..i] == items[..i];
        if Authorized(accounts, items[i].telegramId) {
          autoRecords.Add(items[i]);
        }
        i := i + 1;
      }
      assert items[..i] == items;
    }

    /** The reconcile loop: add each unknown key of an authorised account. */
    method AdmitIncoming(records: seq<Item>, accounts: map<int, bool>)
      modifies autoRecords
      ensures autoRecords.items == Admit(old(autoRecords.items), records, accounts)
    {
      var i := 0;
      while i < |records|
        invariant 0 <= i <= |records|
        invariant autoRecords.items == Admit(old(autoRecords.items), records[..i], accounts)
      {
        assert records[..i + 1][..i] == records[..i];
        var x := records[i];
        if !autoRecords.Exists(x.telegramId, x.chatId) {
          if Authorized(accounts, x.telegramId) {
            autoRecords.Add(x);
          }
        }
        i := i + 1;
      }
      assert records[..i] == records;
    }

    /** Call every listener, in registration order, with the removed list. */
    method NotifyRemoved(removed: seq<Item>)
      modifies this`notified
      ensures notified == old(notified) + Calls(listeners, removed)
      ensures listeners == old(listeners) && initialized == old(initialized)
    {
      var k := 0;
      while k < |listeners|
        invariant 0 <= k <= |listeners|
        invariant notified == old(notified) + Calls(listeners[..k], removed)
      {
        notified := notified + [Notification(listeners[k], removed)];
        k := k + 1;
      }
      assert listeners[..k] == listeners;
    }

    /**
     * Reconcile the held registry with a new configuration: add unknown keys
     * of authorised accounts, drop held items whose key is gone, and pass the
     * dropped items to every listener when there are any.
     */
    method OnAutoRecordsUpdate(records: seq<Item>, accounts: map<int, bool>) returns (removed: seq<Item>)
      modifies this, autoRecords
      ensures autoRecords.items == Retained(Admit(old(autoRecords.items), records, accounts), records)
      ensures removed == Dropped(old(autoRecords.items), records)
      ensures notified == old(notified) + (if removed == [] then [] else Calls(listeners, removed))
      ensures listeners == old(listeners) && initialized == old(initialized)
    {
      AdmitIncoming(records, accounts);
      var kept;
      kept, removed := SplitHeld(autoRecords.items, records);
      autoRecords.items := kept;
      DroppedIgnoresAdmitted(old(autoRecords.items), records, accounts);
      if removed != [] {
        NotifyRemoved(removed);
      }
    }
  }

  /**
   * The `removeIf` pass of reconciliation: split the held items into those
   * whose key is still configured and those that are reported as removed.
   */
  method SplitHeld(held: seq<Item>, records: seq<Item>) returns (kept: seq<Item>, removed: seq<Item>)
    ensures kept == Retained(held, records)
    ensures removed == Dropped(held, records)
  {
    kept, removed := [], [];
    var j := 0;
    while j < |held|
      invariant 0 <= j <= |held|
      invariant kept == Retained(held[..j], records)
      invariant removed == Dropped(held[..j], records)
    {
      assert held[..j + 1][..j] == held[..j];
      var x := held[j];
      if HasKey(records, x.telegramId, x.chatId) {
        kept := kept + [x];
      } else {
        removed := removed + [x];
      }
      j := j + 1;
    }
    assert held[..j] == held;
  }
}
