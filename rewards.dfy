/**
 * The event's configuration as the game reads it: prize pools of reward items,
 * the wish rewards a player can choose from, and the progress milestones.
 * Also the string key `"{name} x{quantity}"` under which collected rewards are counted.
 */
module Rewards {

  datatype Option<T> = None | Some(value: T)

  /** One catalog entry: a reward name, how many units it grants, and its sampling weight. */
  datatype RewardItem = RewardItem(name: string, quantity: int, probability: real)

  datatype Pool = Pool(items: seq<RewardItem>)

  /** Display-only milestone record (`{milestone, rewards}`); no game logic reads it. */
  datatype Milestone = Milestone(milestone: int, rewards: string)

  /** The loaded configuration document: `prize_pools`, `wish_rewards`, `progress_rewards`. */
  datatype EventData = EventData(prizePools: seq<Pool>, wishRewards: seq<RewardItem>, progressRewards: seq<Milestone>)

  /** All pool items, pool by pool, in order: `[item for pool in pools for item in pool['items']]`. */
  function Flatten(pools: seq<Pool>): (items: seq<RewardItem>)
    ensures forall p, x :: 0 <= p < |pools| && x in pools[p].items ==> x in items
    ensures forall x :: x in items ==> exists p :: 0 <= p < |pools| && x in pools[p].items
  {
    if pools == [] then [] else pools[0].items + Flatten(pools[1..])
  }

  /** The first item with the given name, or None: `next((item for item in items if ...), None)`. */
  function FirstNamed(items: seq<RewardItem>, name: string): (r: Option<RewardItem>)
    ensures r.None? <==> forall i :: 0 <= i < |items| ==> items[i].name != name
    ensures r.Some? ==> r.value in items && r.value.name == name
    ensures r.Some? ==> exists i :: 0 <= i < |items| && items[i] == r.value &&
                                    forall j :: 0 <= j < i ==> items[j].name != name
  {
    if items == [] then None
    else if items[0].name == name then Some(items[0])
    else
      var r := FirstNamed(items[1..], name);
      assert r.Some? ==> exists i :: 0 <= i < |items| && items[i] == r.value &&
                                     forall j :: 0 <= j < i ==> items[j].name != name by {
        if r.Some? {
          var i :| 0 <= i < |items[1..]| && items[1..][i] == r.value &&
                   forall j :: 0 <= j < i ==> items[1..][j].name != name;
          assert items[i + 1] == r.value;
          assert forall j :: 0 <= j < i + 1 ==> items[j].name != name by {
            forall j | 0 <= j < i + 1 ensures items[j].name != name {
              if j > 0 { assert items[j] == items[1..][j - 1]; }
            }
          }
        }
      }
      r
  }

  function DigitChar(d: nat): (c: char)
    requires d < 10
    ensures '0' <= c <= '9' && c as int == '0' as int + d
  {
    ('0' as int + d) as char
  }

  /** Decimal digits of a natural number, as Python's `str` writes them. */
  function NatToString(n: nat): (s: string)
    ensures |s| >= 1
    ensures forall i :: 0 <= i < |s| ==> '0' <= s[i] <= '9'
    ensures n < 10 <==> |s| == 1
  {
    if n < 10 then [DigitChar(n)] else NatToString(n / 10) + [DigitChar(n % 10)]
  }

  /** Python's `str` of an integer: a minus sign for negatives, then the digits. */
  function IntToString(i: int): (s: string)
    ensures |s| >= 1
    ensures forall k :: 0 <= k < |s| ==> s[k] == '-' || '0' <= s[k] <= '9'
    ensures s[0] == '-' <==> i < 0
  {
    if i < 0 then "-" + NatToString(-i) else NatToString(i)
  }

  /**
   * The collected-rewards key of an item: `f"{name} x{quantity}"`. After the name comes
   * `" x"` and at least one character of the quantity; `KeyParts` reads both back.
   */
  function Key(item: RewardItem): (k: string)
    ensures |k| >= |item.name| + 3
    ensures k[|item.name|] == ' ' && k[|item.name| + 1] == 'x'
  {
    item.name + " x" + IntToString(item.quantity)
  }

  lemma {:induction false} NatToStringInjective(m: nat, n: nat)
    requires NatToString(m) == NatToString(n)
    ensures m == n
  {
    var s := NatToString(m);
    if m < 10 || n < 10 {
      assert m < 10 && n < 10;
      assert DigitChar(m) == s[0] == DigitChar(n);
    } else {
      assert NatToString(m / 10) == s[..|s| - 1] == NatToString(n / 10);
      NatToStringInjective(m / 10, n / 10);
      assert DigitChar(m % 10) == s[|s| - 1] == DigitChar(n % 10);
      assert m == m / 10 * 10 + m % 10 && n == n / 10 * 10 + n % 10;
    }
  }

  lemma IntToStringInjective(a: int, b: int)
    requires IntToString(a) == IntToString(b)
    ensures a == b
  {
    var s := IntToString(a);
    if a < 0 && b < 0 {
      assert NatToString(-a) == s[1..] == NatToString(-b);
      NatToStringInjective(-a, -b);
    } else if a >= 0 && b >= 0 {
      NatToStringInjective(a, b);
    }
  }

  /** Position of the last `'x'` in a string, or -1 when there is none. */
  function LastX(s: string): (i: int)
    ensures -1 <= i < |s|
  {
    if s == [] then -1
    else if s[|s| - 1] == 'x' then |s| - 1
    else LastX(s[..|s| - 1])
  }

  lemma {:induction false} LastXBeforeDigits(p: string, d: string)
    requires |p| >= 1 && p[|p| - 1] == 'x'
    requires forall k :: 0 <= k < |d| ==> d[k] != 'x'
    ensures LastX(p + d) == |p| - 1
  {
    if d != [] {
      assert (p + d)[..|p + d| - 1] == p + d[..|d| - 1];
      LastXBeforeDigits(p, d[..|d| - 1]);
    } else {
      assert p + d == p;
    }
  }

  /** A key splits at its last `'x'` into the name with `" "`, and the quantity's digits. */
  lemma KeyParts(item: RewardItem)
    ensures LastX(Key(item)) == |item.name| + 1
    ensures Key(item)[..|item.name|] == item.name
    ensures Key(item)[|item.name| + 2..] == IntToString(item.quantity)
  {
    var d := IntToString(item.quantity);
    LastXBeforeDigits(item.name + " x", d);
    assert Key(item) == (item.name + " x") + d;
  }

  /**
   * Distinct reward identities get distinct keys: the key determines the name and the
   * quantity, because the digits after the last `" x"` cannot contain an `x`.
   */
  lemma KeyInjective(a: RewardItem, b: RewardItem)
    requires Key(a) == Key(b)
    ensures a.name == b.name && a.quantity == b.quantity
  {
    KeyParts(a);
    KeyParts(b);
    IntToStringInjective(a.quantity, b.quantity);
  }

  /** The keys `initialize_game` puts in `collected_rewards`: every pool item and every wish reward. */
  function AllKeys(data: EventData): (ks: set<string>)
    ensures forall x :: x in data.wishRewards ==> Key(x) in ks
    ensures forall p, x :: 0 <= p < |data.prizePools| && x in data.prizePools[p].items ==> Key(x) in ks
    ensures forall k :: k in ks ==> exists x :: x in Flatten(data.prizePools) + data.wishRewards && k == Key(x)
  {
    set x | x in Flatten(data.prizePools) + data.wishRewards :: Key(x)
  }

  /** The zeroed `collected_rewards` dictionary of a new round. */
  function InitialCollected(data: EventData): (m: map<string, int>)
    ensures forall k :: k in m <==> k in AllKeys(data)
    ensures forall k :: k in m ==> m[k] == 0
  {
    map k | k in AllKeys(data) :: 0
  }
}
