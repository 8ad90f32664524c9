/**
 * The three session transitions of src/App.tsx (lines 36-80), as functions from the
 * old friend and expense lists to the new ones. The React state setters, the form
 * drafts and `Date.now()` are not modelled: the new id is a parameter and the form
 * fields arrive already parsed (`None` stands for a `NaN` from `parseFloat`/`parseInt`).
 */
module Handlers {
  import opened Types
  import opened Lists

  // ---------------------------------------------------------------------------
  // String.prototype.trim
  // ---------------------------------------------------------------------------

  /** The characters `trim` strips: ECMAScript WhiteSpace and LineTerminator. */
  predicate IsSpace(c: char)
  {
    c == '\t' || c == '\n' || c == '\U{000B}' || c == '\U{000C}' || c == '\r' || c == ' ' ||
    c == '\U{00A0}' || c == '\U{1680}' || ('\U{2000}' <= c <= '\U{200A}') ||
    c == '\U{2028}' || c == '\U{2029}' || c == '\U{202F}' || c == '\U{205F}' ||
    c == '\U{3000}' || c == '\U{FEFF}'
  }

  /** Every character of `s` is white space. */
  predicate Blank(s: string)
  {
    s == [] || (IsSpace(s[0]) && Blank(s[1..]))
  }

  lemma {:induction false} BlankConcat(a: string, b: string)
    ensures Blank(a + b) <==> Blank(a) && Blank(b)
  {
    if a == [] {
      assert a + b == b;
    } else {
      assert (a + b)[0] == a[0] && (a + b)[1..] == a[1..] + b;
      BlankConcat(a[1..], b);
    }
  }

  lemma {:induction false} BlankAt(s: string, k: int)
    requires Blank(s) && 0 <= k < |s|
    ensures IsSpace(s[k])
  {
    if k > 0 {
      BlankAt(s[1..], k - 1);
    }
  }

  /** The offset of the first character of `s` that is not white space (`|s|` if none). */
  function TextStart(s: string): (i: nat)
    ensures i <= |s|
  {
    if s != [] && IsSpace(s[0]) then 1 + TextStart(s[1..]) else 0
  }

  /** Everything before `TextStart(s)` is white space, and the character there is not. */
  lemma {:induction false} TextStartBlank(s: string)
    ensures Blank(s[..TextStart(s)])
    ensures TextStart(s) == |s| || !IsSpace(s[TextStart(s)])
  {
    if s != [] && IsSpace(s[0]) {
      TextStartBlank(s[1..]);
      var i := TextStart(s);
      assert s[..i][1..] == s[1..][..i - 1];
      assert i < |s| ==> s[i] == s[1..][i - 1];
    } else {
      assert s[..0] == [];
    }
  }

  /** The offset just after the last character of `s` that is not white space (0 if none). */
  function TextEnd(s: string): (j: nat)
    ensures j <= |s|
  {
    if s != [] && IsSpace(s[|s| - 1]) then TextEnd(s[..|s| - 1]) else |s|
  }

  /** Everything from `TextEnd(s)` on is white space, and the character before it is not. */
  lemma {:induction false} TextEndBlank(s: string)
    ensures Blank(s[TextEnd(s)..])
    ensures TextEnd(s) == 0 || !IsSpace(s[TextEnd(s) - 1])
  {
    if s != [] && IsSpace(s[|s| - 1]) {
      var init := s[..|s| - 1];
      var j := TextEnd(s);
      TextEndBlank(init);
      assert s[j..] == init[j..] + [s[|s| - 1]];
      assert Blank([s[|s| - 1]]) by {
        assert [s[|s| - 1]][1..] == [];
      }
      BlankConcat(init[j..], [s[|s| - 1]]);
      assert j > 0 ==> s[j - 1] == init[j - 1];
    } else {
      assert s[|s|..] == [];
    }
  }

  /**
   * `s.trim()`: `s` without its leading and its trailing white space. It is empty
   * exactly when `s` is blank, and otherwise starts and ends with a non-space.
   */
  function Trim(s: string): (r: string)
    ensures r == [] <==> Blank(s)
    ensures r == [] || (!IsSpace(r[0]) && !IsSpace(r[|r| - 1]))
  {
    TrimmedEmpty(s);
    TrimmedEnds(s);
    var t := s[TextStart(s)..];
    t[..TextEnd(t)]
  }

  /** The body of `Trim` is empty exactly when `s` is blank. */
  lemma TrimmedEmpty(s: string)
    ensures var t := s[TextStart(s)..]; t[..TextEnd(t)] == [] <==> Blank(s)
  {
    var i := TextStart(s);
    var t := s[i..];
    TextStartBlank(s);
    assert t != [] ==> t[0] == s[i];
    if TextEnd(t) == 0 {
      TextEndBlank(t);
      assert t[0..] == t;
      assert i == |s| ==> s[..i] == s;
    } else if Blank(s) && i < |s| {
      BlankAt(s, i);
    }
  }

  /** The body of `Trim`, when not empty, starts and ends with a non-space. */
  lemma TrimmedEnds(s: string)
    ensures var t := s[TextStart(s)..]; var r := t[..TextEnd(t)];
      r == [] || (!IsSpace(r[0]) && !IsSpace(r[|r| - 1]))
  {
    var i := TextStart(s);
    var t := s[i..];
    var j := TextEnd(t);
    if j > 0 {
      TextStartBlank(s);
      TextEndBlank(t);
      assert t[..j][0] == s[i];
      assert t[..j][j - 1] == t[j - 1];
    }
  }

  /**
   * The trimmed string is the piece of `s` that starts at offset `i`, with only white
   * space before and after it.
   */
  lemma TrimIsInfix(s: string) returns (i: nat)
    ensures i + |Trim(s)| <= |s| && Trim(s) == s[i..i + |Trim(s)|]
    ensures Blank(s[..i]) && Blank(s[i + |Trim(s)|..])
  {
    i := TextStart(s);
    var j := TextEnd(s[i..]);
    TrimmedInfix(s, i, j);
    assert Trim(s) == s[i..][..j];
  }

  /** The slices `Trim` takes, read as slices of `s`. */
  lemma TrimmedInfix(s: string, i: nat, j: nat)
    requires i == TextStart(s) && j == TextEnd(s[i..])
    ensures i + j <= |s| && s[i..][..j] == s[i..i + j]
    ensures Blank(s[..i]) && Blank(s[i + j..])
  {
    TextStartBlank(s);
    TextEndBlank(s[i..]);
    SliceOfSuffix(s, i, j);
  }

  /** A prefix of a suffix is a slice, and a suffix of a suffix is a suffix. */
  lemma SliceOfSuffix(s: string, i: nat, j: nat)
    requires i + j <= |s|
    ensures s[i..][..j] == s[i..i + j] && s[i..][j..] == s[i + j..]
  {
    assert s[i..][..j] == s[i..i + j] by {
      assert forall k :: 0 <= k < j ==> s[i..][..j][k] == s[i..i + j][k];
    }
    assert s[i..][j..] == s[i + j..] by {
      assert forall k :: 0 <= k < |s| - i - j ==> s[i..][j..][k] == s[i + j..][k];
    }
  }

  // ---------------------------------------------------------------------------
  // handleAddFriend, handleRemoveFriend
  // ---------------------------------------------------------------------------

  /**
   * handleAddFriend: a name with some non-space character appends a friend with the
   * trimmed name and the given id; a blank name leaves the roster as it was.
   */
  function AddFriend(friends: seq<Friend>, name: string, id: int): (r: seq<Friend>)
    ensures Blank(name) ==> r == friends
    ensures !Blank(name) ==> r == friends + [Friend(id, Trim(name))]
    ensures !Blank(name) ==> r[|friends|].name != [] && !IsSpace(r[|friends|].name[0])
  {
    var trimmed := Trim(name);
    if trimmed != [] then friends + [Friend(id, trimmed)] else friends
  }

  /** Ids are unique when the new id is fresh: the app relies on the clock for this. */
  lemma AddFriendKeepsIdsDistinct(friends: seq<Friend>, name: string, id: int)
    requires forall i, j :: 0 <= i < j < |friends| ==> friends[i].id != friends[j].id
    requires id !in RosterIds(friends)
    ensures var r := AddFriend(friends, name, id);
      forall i, j :: 0 <= i < j < |r| ==> r[i].id != r[j].id
  {
    var r := AddFriend(friends, name, id);
    forall i, j | 0 <= i < j < |r| ensures r[i].id != r[j].id {
      if j == |friends| {
        assert r[i] in friends;
      }
    }
  }

  /**
   * handleRemoveFriend: drops, in order, every friend with the id and, in cascade,
   * every expense that friend paid. Expenses that merely split with the friend stay.
   */
  function RemoveFriend(s: Session, id: int): (r: Session)
    ensures forall f :: f in r.friends <==> f in s.friends && f.id != id
    ensures forall e :: e in r.expenses <==> e in s.expenses && e.paidBy != id
    ensures forall f :: multiset(r.friends)[f] == if f.id != id then multiset(s.friends)[f] else 0
    ensures forall e :: multiset(r.expenses)[e] == if e.paidBy != id then multiset(s.expenses)[e] else 0
    ensures IsSubseq(r.friends, s.friends) && IsSubseq(r.expenses, s.expenses)
    ensures id !in RosterIds(r.friends)
  {
    Session(Filter(s.friends, (f: Friend) => f.id != id), Filter(s.expenses, (e: Expense) => e.paidBy != id))
  }

  /** Removing the same friend twice is removing it once. */
  lemma RemoveFriendIdempotent(s: Session, id: int)
    ensures RemoveFriend(RemoveFriend(s, id), id) == RemoveFriend(s, id)
  {
    FilterIdempotent(s.friends, (f: Friend) => f.id != id);
    FilterIdempotent(s.expenses, (e: Expense) => e.paidBy != id);
  }

  /** Removing an id nobody has and nobody paid with changes nothing. */
  lemma RemoveAbsentFriend(s: Session, id: int)
    requires id !in RosterIds(s.friends)
    requires forall e :: e in s.expenses ==> e.paidBy != id
    ensures RemoveFriend(s, id) == s
  {
    FilterKeepsAll(s.friends, (f: Friend) => f.id != id);
    FilterKeepsAll(s.expenses, (e: Expense) => e.paidBy != id);
  }

  // ---------------------------------------------------------------------------
  // handleAddExpense
  // ---------------------------------------------------------------------------

  /**
   * The expense form after parsing: `None` is a `NaN` from `parseFloat`/`parseInt`.
   * `splits` lists the form's `[id, value]` entries with the id parsed and the value
   * parsed (or `None`).
   */
  datatype Draft = Draft(description: string, amount: Option<real>, paidBy: Option<int>, splits: seq<(int, Option<real>)>)

  /** What happened to a submitted draft: appended, ignored for a missing field, or refused by the alert. */
  datatype AddOutcome = Added | Incomplete | SplitRejected

  /** `parseFloat(value) || 0`: a non-numeric value counts as 0. */
  function Percent(v: Option<real>): real
  {
    if v.Some? then v.value else 0.0
  }

  predicate DistinctFriends(splits: seq<Share>)
  {
    forall i, j :: 0 <= i < j < |splits| ==> splits[i].friend != splits[j].friend
  }

  function SplitIds(splits: seq<Share>): set<int>
  {
    set sh | sh in splits :: sh.friend
  }

  /**
   * `acc[id] = pct` on a split object: overwrites the share of `id` in place if it has
   * one, otherwise adds the share at the end.
   */
  function PutShare(splits: seq<Share>, id: int, pct: real): (r: seq<Share>)
    ensures SplitIds(r) == SplitIds(splits) + {id}
    ensures Share(id, pct) in r
    ensures id !in SplitIds(splits) ==> r == splits + [Share(id, pct)]
  {
    if splits == [] then [Share(id, pct)]
    else if splits[0].friend == id then [Share(id, pct)] + splits[1..]
    else
      var rest := PutShare(splits[1..], id, pct);
      assert splits == [splits[0]] + splits[1..];
      assert SplitIds(splits) == {splits[0].friend} + SplitIds(splits[1..]);
      assert SplitIds([splits[0]] + rest) == {splits[0].friend} + SplitIds(rest);
      [splits[0]] + rest
  }

  /**
   * `acc[id] = pct` on a key that is there keeps the number of shares, and every share
   * of another friend stays where it was.
   */
  lemma {:induction false} PutShareFrame(splits: seq<Share>, id: int, pct: real)
    ensures var r := PutShare(splits, id, pct);
      (id in SplitIds(splits) ==> |r| == |splits|)
      && forall k :: 0 <= k < |splits| && splits[k].friend != id ==> r[k] == splits[k]
  {
    if splits != [] && splits[0].friend != id {
      PutShareFrame(splits[1..], id, pct);
      var rest := PutShare(splits[1..], id, pct);
      assert PutShare(splits, id, pct) == [splits[0]] + rest;
      assert id in SplitIds(splits) ==> id in SplitIds(splits[1..]) by {
        assert SplitIds(splits) == {splits[0].friend} + SplitIds(splits[1..]) by {
          assert splits == [splits[0]] + splits[1..];
        }
      }
    }
  }

  /**
   * In a split object with distinct keys, `acc[id] = pct` overwrites the share of `id`
   * where it stands and leaves every other share as it was, or appends a new one.
   */
  lemma PutShareInPlace(splits: seq<Share>, id: int, pct: real)
    requires DistinctFriends(splits)
    ensures var r := PutShare(splits, id, pct);
      |r| == |splits| + (if id in SplitIds(splits) then 0 else 1)
      && forall k :: 0 <= k < |splits| ==> r[k] == (if splits[k].friend == id then Share(id, pct) else splits[k])
  {
    var r := PutShare(splits, id, pct);
    PutShareFrame(splits, id, pct);
    if id in SplitIds(splits) {
      forall k | 0 <= k < |splits| && splits[k].friend == id
        ensures r[k] == Share(id, pct)
      {
        var m :| 0 <= m < |r| && r[m] == Share(id, pct);
        assert splits[m].friend == id;
        assert m == k;
      }
    }
  }

  /** Writing a key into a split object keeps its keys distinct. */
  lemma PutShareDistinct(splits: seq<Share>, id: int, pct: real)
    requires DistinctFriends(splits)
    ensures DistinctFriends(PutShare(splits, id, pct))
  {
    var r := PutShare(splits, id, pct);
    PutShareInPlace(splits, id, pct);
    assert forall k :: 0 <= k < |splits| ==> r[k].friend == splits[k].friend;
    if id !in SplitIds(splits) {
      forall k | 0 <= k < |splits|
        ensures r[k].friend != id
      {
        assert splits[k] in splits;
      }
    }
  }

  /** The `reduce` of lines 55-58: folds the parsed draft entries into a split object. */
  function ParseSplits(raw: seq<(int, Option<real>)>): (r: seq<Share>)
    ensures DistinctFriends(r)
    ensures SplitIds(r) == set e | e in raw :: e.0
  {
    if raw == [] then []
    else
      var last := raw[|raw| - 1];
      var init := raw[..|raw| - 1];
      assert raw == init + [last];
      assert (set e | e in raw :: e.0) == (set e | e in init :: e.0) + {last.0};
      PutShareDistinct(ParseSplits(init), last.0, Percent(last.1));
      PutShare(ParseSplits(init), last.0, Percent(last.1))
  }

  /** With distinct draft ids (the keys of one object), each entry becomes one share, in order. */
  lemma {:induction false} ParseDistinctSplits(raw: seq<(int, Option<real>)>)
    requires forall i, j :: 0 <= i < j < |raw| ==> raw[i].0 != raw[j].0
    ensures |ParseSplits(raw)| == |raw|
    ensures forall k :: 0 <= k < |raw| ==> ParseSplits(raw)[k] == Share(raw[k].0, Percent(raw[k].1))
  {
    if raw != [] {
      var init := raw[..|raw| - 1];
      var last := raw[|raw| - 1];
      ParseDistinctSplits(init);
      var p := ParseSplits(init);
      assert last.0 !in SplitIds(p) by {
        forall sh | sh in p ensures sh.friend != last.0 {
          var k :| 0 <= k < |p| && p[k] == sh;
          assert sh.friend == raw[k].0;
        }
      }
      assert ParseSplits(raw) == p + [Share(last.0, Percent(last.1))];
    }
  }

  /** The fields `amount && description && paidBy` are all truthy. */
  predicate Complete(d: Draft)
  {
    d.amount.Some? && d.amount.value != 0.0 && d.description != [] && d.paidBy.Some? && d.paidBy.value != 0
  }

  /** `Math.abs(total - 100) < 0.01`. */
  predicate NearHundred(total: real)
  {
    -0.01 < total - 100.0 < 0.01
  }

  /**
   * handleAddExpense: a complete draft whose percentages total 100 within 0.01 is
   * appended with the given id; an incomplete one is ignored and one with a bad total
   * is refused. The roster never changes.
   */
  function AddExpense(s: Session, d: Draft, id: int): (r: (Session, AddOutcome))
    ensures r.0.friends == s.friends
    ensures r.1 == Incomplete <==> !Complete(d)
    ensures r.1 == Added <==> Complete(d) && NearHundred(SplitTotal(ParseSplits(d.splits)))
    ensures r.1 == Added ==>
      r.0.expenses == s.expenses + [Expense(id, d.description, d.amount.value, d.paidBy.value, ParseSplits(d.splits))]
    ensures r.1 != Added ==> r.0.expenses == s.expenses
  {
    if Complete(d) then
      var splits := ParseSplits(d.splits);
      if NearHundred(SplitTotal(splits)) then
        (Session(s.friends, s.expenses + [Expense(id, d.description, d.amount.value, d.paidBy.value, splits)]), Added)
      else (s, SplitRejected)
    else (s, Incomplete)
  }

  /** What every expense that went through the form satisfies. */
  predicate Recorded(e: Expense)
  {
    e.amount != 0.0 && e.description != [] && e.paidBy != 0 && DistinctFriends(e.splits) && NearHundred(SplitTotal(e.splits))
  }

  /** Adding an expense and removing a friend keep every recorded expense well formed. */
  lemma TransitionsKeepRecorded(s: Session, d: Draft, id: int, gone: int)
    requires forall e :: e in s.expenses ==> Recorded(e)
    ensures forall e :: e in AddExpense(s, d, id).0.expenses ==> Recorded(e)
    ensures forall e :: e in RemoveFriend(s, gone).expenses ==> Recorded(e)
  {
  }
}
