/** Review selection: the challenge card and the buried list. */
module Selection {
  import opened Model

  /** Shown for review: active and already distilled. */
  predicate Eligible(it: Item) {
    it.soil.status == Active && it.seed.Some?
  }

  /** `items.filter(i => i.soil.status === 'active' && i.seed)`. */
  function Candidates(items: seq<Item>): seq<Item> {
    if |items| == 0 then []
    else if Eligible(items[0]) then [items[0]] + Candidates(items[1..])
    else Candidates(items[1..])
  }

  /** Strengths never increase along `s`. */
  predicate StrongestFirst(s: seq<Item>) {
    forall i, j :: 0 <= i < j < |s| ==> s[i].soil.strength >= s[j].soil.strength
  }

  /** Places `x` before the first element of `s` that is not stronger than it. */
  function Insert(x: Item, s: seq<Item>): seq<Item> {
    if |s| == 0 || x.soil.strength >= s[0].soil.strength then [x] + s
    else [s[0]] + Insert(x, s[1..])
  }

  /** The stable sort `.sort((a, b) => b.soil.strength - a.soil.strength)`: strongest
      first, equal strengths in their original order. */
  function SortByStrength(s: seq<Item>): seq<Item> {
    if |s| == 0 then [] else Insert(s[0], SortByStrength(s[1..]))
  }

  /** Insert adds exactly `x`. */
  lemma {:induction false} InsertPermutes(x: Item, s: seq<Item>)
    ensures multiset(Insert(x, s)) == multiset(s) + multiset{x}
    decreases |s|
  {
    if |s| > 0 && x.soil.strength < s[0].soil.strength {
      InsertPermutes(x, s[1..]);
      assert s == [s[0]] + s[1..];
    }
  }

  /** Prepending `y` to a sorted list keeps it sorted when `y` is at least its head. */
  lemma ConsSorted(y: Item, t: seq<Item>)
    requires StrongestFirst(t)
    requires |t| > 0 ==> y.soil.strength >= t[0].soil.strength
    ensures StrongestFirst([y] + t)
  {
  }

  /** Insert keeps a list sorted. */
  lemma {:induction false} InsertSorted(x: Item, s: seq<Item>)
    requires StrongestFirst(s)
    ensures StrongestFirst(Insert(x, s))
    decreases |s|
  {
    if |s| == 0 || x.soil.strength >= s[0].soil.strength {
      ConsSorted(x, s);
    } else {
      var t := Insert(x, s[1..]);
      assert StrongestFirst(s[1..]) by {
        forall i, j | 0 <= i < j < |s| - 1 ensures s[1..][i].soil.strength >= s[1..][j].soil.strength {
          assert s[1..][i] == s[i + 1] && s[1..][j] == s[j + 1];
        }
      }
      InsertSorted(x, s[1..]);
      assert |s| > 1 ==> t[0] == x || t[0] == s[1];
      assert |s| == 1 ==> t == [x];
      ConsSorted(s[0], t);
    }
  }

  /** The sort orders strongest first and is a permutation of its input. */
  lemma {:induction false} SortByStrengthCorrect(s: seq<Item>)
    ensures StrongestFirst(SortByStrength(s))
    ensures multiset(SortByStrength(s)) == multiset(s)
    decreases |s|
  {
    if |s| > 0 {
      SortByStrengthCorrect(s[1..]);
      InsertSorted(s[0], SortByStrength(s[1..]));
      InsertPermutes(s[0], SortByStrength(s[1..]));
      assert s == [s[0]] + s[1..];
    }
  }

  /** The card shown by `renderChallenge`: the head of the sorted candidates, if any. */
  function Challenge(items: seq<Item>): Option<Item> {
    var sorted := SortByStrength(Candidates(items));
    if |sorted| == 0 then None else Some(sorted[0])
  }

  /** Position k holds the first eligible item of maximal strength. */
  predicate IsFirstStrongest(items: seq<Item>, k: int) {
    && 0 <= k < |items| && Eligible(items[k])
    && (forall j :: 0 <= j < |items| && Eligible(items[j]) ==> items[j].soil.strength <= items[k].soil.strength)
    && (forall j :: 0 <= j < k && Eligible(items[j]) ==> items[j].soil.strength < items[k].soil.strength)
  }

  /** No card is shown exactly when no item is eligible; otherwise the card is the
      earliest eligible item of maximal strength. */
  lemma {:induction false} ChallengeIsFirstStrongest(items: seq<Item>)
    ensures Challenge(items).None? <==> forall j :: 0 <= j < |items| ==> !Eligible(items[j])
    ensures Challenge(items).Some? ==>
      exists k :: IsFirstStrongest(items, k) && items[k] == Challenge(items).value
    decreases |items|
  {
    if |items| > 0 {
      var rest := items[1..];
      ChallengeIsFirstStrongest(rest);
      var x := items[0];
      if !Eligible(x) {
        assert Candidates(items) == Candidates(rest);
        if Challenge(rest).Some? {
          var k :| IsFirstStrongest(rest, k) && rest[k] == Challenge(rest).value;
          assert IsFirstStrongest(items, k + 1);
        }
      } else {
        var sortedRest := SortByStrength(Candidates(rest));
        assert SortByStrength(Candidates(items)) == Insert(x, sortedRest);
        if Challenge(rest).None? {
          assert IsFirstStrongest(items, 0);
        } else {
          var k :| IsFirstStrongest(rest, k) && rest[k] == Challenge(rest).value;
          if x.soil.strength >= rest[k].soil.strength {
            assert Challenge(items) == Some(x);
            assert IsFirstStrongest(items, 0);
          } else {
            assert Challenge(items) == Some(rest[k]);
            assert IsFirstStrongest(items, k + 1);
          }
        }
      }
    }
  }

  /** The first strongest eligible item is unique, so it determines the card. */
  lemma ChallengeOfFirstStrongest(items: seq<Item>, k: int)
    requires IsFirstStrongest(items, k)
    ensures Challenge(items) == Some(items[k])
  {
    ChallengeIsFirstStrongest(items);
    var k' :| IsFirstStrongest(items, k') && items[k'] == Challenge(items).value;
    assert k' == k;
  }

  /** `items.filter(i => i.soil.status === 'buried')`. */
  function BuriedList(items: seq<Item>): seq<Item> {
    if |items| == 0 then []
    else if items[0].soil.status == Buried then [items[0]] + BuriedList(items[1..])
    else BuriedList(items[1..])
  }

  /** The buried list holds exactly the buried items. */
  lemma {:induction false} BuriedListMembers(items: seq<Item>)
    ensures forall x :: x in BuriedList(items) <==> x in items && x.soil.status == Buried
    decreases |items|
  {
    if |items| > 0 {
      BuriedListMembers(items[1..]);
      assert items == [items[0]] + items[1..];
    }
  }

  /** The buried list keeps list order: filtering a concatenation concatenates the
      filtered parts, and a single item is kept exactly when it is buried. */
  lemma {:induction false} BuriedListConcat(a: seq<Item>, b: seq<Item>)
    ensures BuriedList(a + b) == BuriedList(a) + BuriedList(b)
    ensures forall x :: BuriedList([x]) == if x.soil.status == Buried then [x] else []
    decreases |a|
  {
    if |a| > 0 {
      assert (a + b)[1..] == a[1..] + b;
      BuriedListConcat(a[1..], b);
    } else {
      assert a + b == b;
    }
    forall x ensures BuriedList([x]) == if x.soil.status == Buried then [x] else [] {
      assert [x][1..] == [];
    }
  }
}
