/**
 * The per-chat auto-download registry: a list of items keyed by
 * (telegramId, chatId), each carrying the chat's download rule and the
 * history-scan cursor.
 */
module AutoRecords {
  import opened Wrappers

  /** The backend's view of a download rule; both fields may be null in the stored setting. */
  datatype Rule = Rule(query: Option<string>, fileTypes: Option<seq<string>>)

  /**
   * One enabled chat. `nextFileType` and `nextFromMessageId` are the
   * history-scan cursor; a freshly built item has a null type and cursor 0.
   */
  datatype Item = Item(
    telegramId: int,
    chatId: int,
    nextFileType: Option<string>,
    nextFromMessageId: int,
    rule: Option<Rule>)

  /** The item the three-argument constructor builds. */
  function NewItem(telegramId: int, chatId: int, rule: Option<Rule>): (r: Item)
    ensures r.telegramId == telegramId && r.chatId == chatId && r.rule == rule
    ensures r.nextFileType.None? && r.nextFromMessageId == 0
  {
    Item(telegramId, chatId, None, 0, rule)
  }

  predicate SameKey(a: Item, b: Item)
  {
    a.telegramId == b.telegramId && a.chatId == b.chatId
  }

  predicate HasKeyAt(items: seq<Item>, i: int, t: int, c: int)
    requires 0 <= i < |items|
  {
    items[i].telegramId == t && items[i].chatId == c
  }

  /** No two items share a (telegramId, chatId) key. */
  ghost predicate KeysUnique(items: seq<Item>)
  {
    forall i, j :: 0 <= i < j < |items| ==> !SameKey(items[i], items[j])
  }

  /** `anyMatch` over the list: some item carries the key (t, c). */
  function HasKey(items: seq<Item>, t: int, c: int): (b: bool)
    ensures b <==> exists i :: 0 <= i < |items| && HasKeyAt(items, i, t, c)
  {
    if items == [] then false
    else
      var rest := HasKey(items[1..], t, c);
      assert forall i :: 1 <= i < |items| ==> (HasKeyAt(items, i, t, c) <==> HasKeyAt(items[1..], i - 1, t, c));
      assert rest ==> exists i :: 0 <= i < |items| && HasKeyAt(items, i, t, c) by {
        if rest {
          var i :| 0 <= i < |items[1..]| && HasKeyAt(items[1..], i, t, c);
          assert HasKeyAt(items, i + 1, t, c);
        }
      }
      HasKeyAt(items, 0, t, c) || rest
  }

  /** `removeIf` on the key (t, c): every other item, in order. */
  function WithoutKey(items: seq<Item>, t: int, c: int): (r: seq<Item>)
    ensures |r| <= |items|
    ensures forall x :: x in r <==> x in items && !(x.telegramId == t && x.chatId == c)
  {
    if items == [] then []
    else if items[0].telegramId == t && items[0].chatId == c then WithoutKey(items[1..], t, c)
    else [items[0]] + WithoutKey(items[1..], t, c)
  }

  /** The items that carry the key (t, c), in order. */
  function WithKey(items: seq<Item>, t: int, c: int): seq<Item>
  {
    if items == [] then []
    else if items[0].telegramId == t && items[0].chatId == c then [items[0]] + WithKey(items[1..], t, c)
    else WithKey(items[1..], t, c)
  }

  /** What `add(item)` leaves in the list: the old items of other keys, then `item`. */
  function AddReplacing(items: seq<Item>, item: Item): (r: seq<Item>)
    ensures |r| > 0 && r[|r| - 1] == item
    ensures forall x :: x in r <==> x == item || (x in items && !SameKey(x, item))
  {
    WithoutKey(items, item.telegramId, item.chatId) + [item]
  }

  lemma {:induction false} WithoutKeyAppend(a: seq<Item>, b: seq<Item>, t: int, c: int)
    ensures WithoutKey(a + b, t, c) == WithoutKey(a, t, c) + WithoutKey(b, t, c)
  {
    if a == [] {
      assert a + b == b;
    } else {
      assert (a + b)[1..] == a[1..] + b;
      WithoutKeyAppend(a[1..], b, t, c);
    }
  }

  lemma {:induction false} WithKeyAppend(a: seq<Item>, b: seq<Item>, t: int, c: int)
    ensures WithKey(a + b, t, c) == WithKey(a, t, c) + WithKey(b, t, c)
  {
    if a == [] {
      assert a + b == b;
    } else {
      assert (a + b)[1..] == a[1..] + b;
      WithKeyAppend(a[1..], b, t, c);
    }
  }

  /** Removing a key leaves the items of every other key, in their order. */
  lemma {:induction false} WithoutKeyKeepsOtherKeys(items: seq<Item>, t: int, c: int, t': int, c': int)
    requires t != t' || c != c'
    ensures WithKey(WithoutKey(items, t, c), t', c') == WithKey(items, t', c')
  {
    if items != [] {
      WithoutKeyKeepsOtherKeys(items[1..], t, c, t', c');
    }
  }

  /** Removing a key is idempotent: a second `remove` changes nothing. */
  lemma {:induction false} WithoutKeyIdempotent(items: seq<Item>, t: int, c: int)
    ensures WithoutKey(WithoutKey(items, t, c), t, c) == WithoutKey(items, t, c)
  {
    if items != [] {
      WithoutKeyIdempotent(items[1..], t, c);
    }
  }

  /** After `remove(t, c)` no item carries that key. */
  lemma WithoutKeyRemovesKey(items: seq<Item>, t: int, c: int)
    ensures !HasKey(WithoutKey(items, t, c), t, c)
  {
  }

  lemma {:induction false} WithoutKeyUnique(items: seq<Item>, t: int, c: int)
    requires KeysUnique(items)
    ensures KeysUnique(WithoutKey(items, t, c))
  {
    if items != [] {
      var rest := items[1..];
      assert KeysUnique(rest) by {
        forall i, j | 0 <= i < j < |rest| ensures !SameKey(rest[i], rest[j]) {
          assert rest[i] == items[i + 1] && rest[j] == items[j + 1];
        }
      }
      WithoutKeyUnique(rest, t, c);
      var w := WithoutKey(rest, t, c);
      if !(items[0].telegramId == t && items[0].chatId == c) {
        var r := [items[0]] + w;
        forall i, j | 0 <= i < j < |r| ensures !SameKey(r[i], r[j]) {
          if i == 0 {
            assert w[j - 1] in rest;
          }
        }
      }
    }
  }

  /** After `add(item)` exactly one item carries item's key: `item` itself, at the end. */
  lemma AddReplacingPlacesItemLast(items: seq<Item>, item: Item)
    ensures var r := AddReplacing(items, item);
      |r| > 0 && r[|r| - 1] == item &&
      forall i :: 0 <= i < |r| ==> (SameKey(r[i], item) <==> i == |r| - 1)
  {
    var w := WithoutKey(items, item.telegramId, item.chatId);
    var r := AddReplacing(items, item);
    forall i | 0 <= i < |r| - 1 ensures !SameKey(r[i], item) {
      assert r[i] == w[i] && w[i] in w;
    }
  }

  /** `add(item)` keeps the items of every other key, in their order. */
  lemma AddReplacingKeepsOtherKeys(items: seq<Item>, item: Item, t': int, c': int)
    requires t' != item.telegramId || c' != item.chatId
    ensures WithKey(AddReplacing(items, item), t', c') == WithKey(items, t', c')
  {
    var w := WithoutKey(items, item.telegramId, item.chatId);
    WithKeyAppend(w, [item], t', c');
    assert WithKey([item], t', c') == [];
    WithoutKeyKeepsOtherKeys(items, item.telegramId, item.chatId, t', c');
  }

  /** `add(item)` keeps keys unique. */
  lemma AddReplacingKeepsKeysUnique(items: seq<Item>, item: Item)
    requires KeysUnique(items)
    ensures KeysUnique(AddReplacing(items, item))
  {
    WithoutKeyUnique(items, item.telegramId, item.chatId);
    AddReplacingPlacesItemLast(items, item);
  }

  /** The three-argument `add` appends without looking, so it can duplicate a key. */
  lemma AddRuleCanDuplicateKey(rule: Option<Rule>)
    ensures var items := [NewItem(1, 2, rule)];
      KeysUnique(items) && !KeysUnique(items + [NewItem(1, 2, rule)])
  {
    var items := [NewItem(1, 2, rule)];
    var r := items + [NewItem(1, 2, rule)];
    assert SameKey(r[0], r[1]);
  }

  /** `Collectors.toMap` meets a second value for one chat id. */
  datatype CollectError = DuplicateKey(chatId: int)

  /** The chat ids of account t's items are pairwise distinct. */
  ghost predicate ChatsDistinct(items: seq<Item>, t: int)
  {
    forall i, j :: 0 <= i < j < |items| && items[i].telegramId == t && items[j].telegramId == t ==>
      items[i].chatId != items[j].chatId
  }

  /**
   * `getItems(t)`: account t's items by chat id, collected in list order;
   * a repeated chat id under that account is the error `toMap` throws.
   */
  function ChatIndex(items: seq<Item>, t: int): (r: Result<map<int, Item>, CollectError>)
    ensures r.Success? <==> ChatsDistinct(items, t)
    ensures r.Success? ==> r.value.Keys == set x | x in items && x.telegramId == t :: x.chatId
    ensures r.Success? ==> forall c :: c in r.value ==>
      r.value[c] in items && r.value[c].telegramId == t && r.value[c].chatId == c
  {
    if items == [] then Success(map[])
    else
      var init := items[..|items| - 1];
      var x := items[|items| - 1];
      assert items == init + [x];
      match ChatIndex(init, t)
      case Failure(e) =>
        assert !ChatsDistinct(init, t);
        Failure(e)
      case Success(m) =>
        if x.telegramId != t then
          Success(m)
        else if x.chatId in m then
          assert !ChatsDistinct(items, t) by {
            var y :| y in init && y.telegramId == t && y.chatId == x.chatId;
            var i :| 0 <= i < |init| && init[i] == y;
            assert items[i] == y;
          }
          Failure(DuplicateKey(x.chatId))
        else
          assert ChatsDistinct(items, t) by {
            forall i | 0 <= i < |init| && init[i].telegramId == t ensures init[i].chatId != x.chatId {
              assert init[i] in init;
            }
          }
          Success(m[x.chatId := x])
  }

  /** The decimal digits of a natural number, most significant first. */
  function Digits(n: nat): (s: string)
    ensures |s| > 0 && forall i :: 0 <= i < |s| ==> '0' <= s[i] <= '9'
  {
    if n < 10 then [(n + '0' as int) as char]
    else Digits(n / 10) + [(n % 10 + '0' as int) as char]
  }

  /** Java's `Long.toString`: a minus sign for negative values, then the digits. */
  function DecimalString(n: int): string
  {
    if n < 0 then "-" + Digits(-n) else Digits(n)
  }

  /** The item's log key, `telegramId + ":" + chatId`. */
  function UniqueKey(item: Item): (r: string)
    ensures var p := DecimalString(item.telegramId);
      |p| < |r| && r[|p|] == ':' && ':' !in r[..|p|] && r[..|p|] == p && r[|p| + 1..] == DecimalString(item.chatId)
  {
    var p := DecimalString(item.telegramId);
    DecimalStringShape(item.telegramId);
    var r := p + ":" + DecimalString(item.chatId);
    assert r[..|p|] == p && r[|p| + 1..] == DecimalString(item.chatId);
    r
  }

  lemma {:induction false} DigitsInjective(a: nat, b: nat)
    requires Digits(a) == Digits(b)
    ensures a == b
  {
    if a >= 10 && b >= 10 {
      var da, db := Digits(a), Digits(b);
      assert da[..|da| - 1] == Digits(a / 10);
      assert db[..|db| - 1] == Digits(b / 10);
      DigitsInjective(a / 10, b / 10);
    }
  }

  lemma DecimalStringShape(n: int)
    ensures |DecimalString(n)| > 0
    ensures DecimalString(n)[0] == '-' <==> n < 0
    ensures ':' !in DecimalString(n)
  {
    var s := DecimalString(n);
    forall i | 0 <= i < |s| ensures s[i] != ':' {
      if n < 0 && i > 0 {
        assert s[i] == Digits(-n)[i - 1];
      }
    }
  }

  lemma DecimalStringInjective(a: int, b: int)
    requires DecimalString(a) == DecimalString(b)
    ensures a == b
  {
    DecimalStringShape(a);
    DecimalStringShape(b);
    if a < 0 && b < 0 {
      assert DecimalString(a)[1..] == Digits(-a);
      assert DecimalString(b)[1..] == Digits(-b);
      DigitsInjective(-a, -b);
    } else if a >= 0 && b >= 0 {
      DigitsInjective(a, b);
    }
  }

  lemma SplitAtFirstColon(p1: string, s1: string, p2: string, s2: string)
    requires ':' !in p1 && ':' !in p2
    requires p1 + ":" + s1 == p2 + ":" + s2
    ensures p1 == p2 && s1 == s2
  {
    var w := p1 + ":" + s1;
    assert forall i :: 0 <= i < |p1| ==> w[i] == p1[i] != ':';
    assert forall i :: 0 <= i < |p2| ==> w[i] == p2[i] != ':';
    assert w[|p1|] == ':' && w[|p2|] == ':';
    assert |p1| == |p2|;
    assert p1 == w[..|p1|] == p2;
    assert s1 == w[|p1| + 1..] == s2;
  }

  /** Two items have the same log key exactly when they have the same (telegramId, chatId). */
  lemma UniqueKeyIdentifiesKey(a: Item, b: Item)
    ensures UniqueKey(a) == UniqueKey(b) <==> SameKey(a, b)
  {
    if UniqueKey(a) == UniqueKey(b) {
      DecimalStringShape(a.telegramId);
      DecimalStringShape(b.telegramId);
      SplitAtFirstColon(DecimalString(a.telegramId), DecimalString(a.chatId),
                        DecimalString(b.telegramId), DecimalString(b.chatId));
      DecimalStringInjective(a.telegramId, b.telegramId);
      DecimalStringInjective(a.chatId, b.chatId);
    }
  }

  /** The registry object; `items` is the list the source mutates in place. */
  class SettingAutoRecords {
    var items: seq<Item>

    /** A fresh registry holds no items. */
    constructor ()
      ensures items == []
    {
      items := [];
    }

    /** The registry built around a deserialized list. */
    constructor FromItems(items0: seq<Item>)
      ensures items == items0
    {
      items := items0;
    }

    /** True iff some item carries the key (t, c). */
    function Exists(t: int, c: int): (b: bool)
      reads this
      ensures b <==> exists i :: 0 <= i < |items| && items[i].telegramId == t && items[i].chatId == c
    {
      assert forall i :: 0 <= i < |items| ==> (HasKeyAt(items, i, t, c) <==> items[i].telegramId == t && items[i].chatId == c);
      HasKey(items, t, c)
    }

    /** Drop any item with item's key, then append item. */
    method Add(item: Item)
      modifies this
      ensures items == AddReplacing(old(items), item)
      ensures Exists(item.telegramId, item.chatId)
      ensures KeysUnique(old(items)) ==> KeysUnique(items)
    {
      items := WithoutKey(items, item.telegramId, item.chatId) + [item];
      if KeysUnique(old(items)) {
        AddReplacingKeepsKeysUnique(old(items), item);
      }
      assert HasKeyAt(items, |items| - 1, item.telegramId, item.chatId);
    }

    /** Append a fresh item for (t, c) without looking for an existing one. */
    method AddRule(t: int, c: int, rule: Option<Rule>)
      modifies this
      ensures items == old(items) + [NewItem(t, c, rule)]
      ensures |items| == |old(items)| + 1
    {
      items := items + [NewItem(t, c, rule)];
    }

    /** Drop every item with key (t, c); all others stay, in order. */
    method Remove(t: int, c: int)
      modifies this
      ensures items == WithoutKey(old(items), t, c)
      ensures !Exists(t, c)
      ensures KeysUnique(old(items)) ==> KeysUnique(items)
    {
      items := WithoutKey(items, t, c);
      WithoutKeyRemovesKey(old(items), t, c);
      if KeysUnique(old(items)) {
        WithoutKeyUnique(old(items), t, c);
      }
    }

    /** Account t's items by chat id, or the duplicate-key error. */
    function GetItems(t: int): (r: Result<map<int, Item>, CollectError>)
      reads this
      ensures r.Success? <==> ChatsDistinct(items, t)
      ensures r.Success? ==> forall c :: c in r.value ==>
        r.value[c] in items && r.value[c].telegramId == t && r.value[c].chatId == c
    {
      ChatIndex(items, t)
    }
  }
}
