/**
 * Course recommendations: the history of recommended course ids, the window
 * of a user's five most recent ones, the rule that picks the next course,
 * and the COURSES reply.
 */
module Courses {
  import opened Wrappers
  import opened Text
  import opened Reference
  import opened Messages

  /** One row of the recommendation history, in insertion order. */
  datatype HistoryEntry = HistoryEntry(user: string, courseId: string)

  /** How many recent recommendations a user's window holds. */
  const WindowSize: nat := 5

  /** The ids of `user`'s last `n` recommendations, most recent first. */
  function RecentIds(h: seq<HistoryEntry>, user: string, n: nat): (r: seq<string>)
    ensures |r| <= n
    ensures forall id :: id in r ==> HistoryEntry(user, id) in h
    decreases |h|
  {
    if n == 0 || h == [] then []
    else if h[|h| - 1].user == user then [h[|h| - 1].courseId] + RecentIds(h[..|h| - 1], user, n - 1)
    else RecentIds(h[..|h| - 1], user, n)
  }

  /** Every id recommended to `user`, oldest first. */
  function UserIds(h: seq<HistoryEntry>, user: string): seq<string>
    decreases |h|
  {
    if h == [] then []
    else UserIds(h[..|h| - 1], user) + (if h[|h| - 1].user == user then [h[|h| - 1].courseId] else [])
  }

  /** The last `n` recommendations are the user's ids read backwards from the
      newest, as many as there are up to `n`. */
  lemma {:induction false} RecentIdsNewestFirst(h: seq<HistoryEntry>, user: string, n: nat)
    ensures var u := UserIds(h, user);
      var r := RecentIds(h, user, n);
      |r| == (if n < |u| then n else |u|) &&
      forall i :: 0 <= i < |r| ==> r[i] == u[|u| - 1 - i]
    decreases |h|
  {
    if n > 0 && h != [] {
      var h' := h[..|h| - 1];
      if h[|h| - 1].user == user {
        RecentIdsNewestFirst(h', user, n - 1);
      } else {
        RecentIdsNewestFirst(h', user, n);
      }
    }
  }

  /** The window the recommendation rule and COURSES read: the user's five
      most recent ids, newest first. */
  function Window(h: seq<HistoryEntry>, user: string): (r: seq<string>)
    ensures |r| == (if |UserIds(h, user)| < WindowSize then |UserIds(h, user)| else WindowSize)
    ensures forall i :: 0 <= i < |r| ==> r[i] == UserIds(h, user)[|UserIds(h, user)| - 1 - i]
  {
    RecentIdsNewestFirst(h, user, WindowSize);
    RecentIds(h, user, WindowSize)
  }

  predicate Distinct(s: seq<string>)
  {
    forall i, j :: 0 <= i < j < |s| ==> s[i] != s[j]
  }

  /** Asking for one entry fewer gives a prefix of the longer answer. */
  lemma {:induction false} RecentIdsPrefix(h: seq<HistoryEntry>, user: string, n: nat)
    ensures RecentIds(h, user, n) <= RecentIds(h, user, n + 1)
    decreases |h|
  {
    if n > 0 && h != [] {
      RecentIdsPrefix(h[..|h| - 1], user, if h[|h| - 1].user == user then n - 1 else n);
    }
  }

  /** A new recommendation for `user` heads the window, followed by the four
      most recent before it. */
  lemma WindowAfterAppend(h: seq<HistoryEntry>, user: string, id: string)
    ensures Window(h + [HistoryEntry(user, id)], user) == [id] + RecentIds(h, user, WindowSize - 1)
  {
    assert (h + [HistoryEntry(user, id)])[..|h|] == h;
  }

  /** A recommendation for one user leaves every other user's window as it was. */
  lemma WindowOtherUser(h: seq<HistoryEntry>, e: HistoryEntry, other: string)
    requires e.user != other
    ensures Window(h + [e], other) == Window(h, other)
  {
    assert (h + [e])[..|h|] == h;
  }

  /** Appending an id that is not in the user's window keeps every window duplicate-free. */
  lemma AppendKeepsWindowsDistinct(h: seq<HistoryEntry>, user: string, id: string)
    requires forall u :: Distinct(Window(h, u))
    requires id !in Window(h, user)
    ensures forall u :: Distinct(Window(h + [HistoryEntry(user, id)], u))
  {
    var e := HistoryEntry(user, id);
    forall u ensures Distinct(Window(h + [e], u)) {
      if u == user {
        WindowAfterAppend(h, user, id);
        RecentIdsPrefix(h, user, WindowSize - 1);
        var four := RecentIds(h, user, WindowSize - 1);
        var w := Window(h, user);
        assert forall i :: 0 <= i < |four| ==> four[i] == w[i];
        var s := [id] + four;
        forall i, j | 0 <= i < j < |s| ensures s[i] != s[j] {
          assert s[j] == w[j - 1];
          if i > 0 { assert s[i] == w[i - 1]; }
        }
      } else {
        WindowOtherUser(h, e, u);
      }
    }
  }

  /** The category's tag: its label in lower case. */
  function Tag(c: Category): (r: string)
    ensures c == Groceries ==> r == "groceries"
    ensures c == Transport ==> r == "transport"
    ensures c == Bills ==> r == "bills"
    ensures c == EatingOut ==> r == "eating out"
    ensures c == Shopping ==> r == "shopping"
    ensures c == Entertainment ==> r == "entertainment"
    ensures c == Savings ==> r == "savings"
  {
    LowerName(c);
    Lower(c.Name())
  }

  /** Each label lower-cased, one category at a time. */
  lemma LowerName(c: Category)
    ensures Lower(c.Name()) == match c
      case Groceries => "groceries"
      case Transport => "transport"
      case Bills => "bills"
      case EatingOut => "eating out"
      case Shopping => "shopping"
      case Entertainment => "entertainment"
      case Savings => "savings"
  {
    match c
    case Groceries => assert Lower("Groceries") == "groceries";
    case Transport => assert Lower("Transport") == "transport";
    case Bills => assert Lower("Bills") == "bills";
    case EatingOut => assert Lower("Eating Out") == "eating out";
    case Shopping => assert Lower("Shopping") == "shopping";
    case Entertainment => assert Lower("Entertainment") == "entertainment";
    case Savings => assert Lower("Savings") == "savings";
  }

  /** A course may be recommended: not in the window, and its lower-cased tags contain the tag. */
  predicate Eligible(c: Course, recent: seq<string>, tag: string)
  {
    c.id !in recent && Contains(Lower(c.tags), tag)
  }

  /** The index of the first eligible course from index `i` on, in catalog order. */
  function FirstEligibleFrom(catalog: seq<Course>, recent: seq<string>, tag: string, i: nat): (r: Option<nat>)
    requires i <= |catalog|
    ensures r.Some? ==> i <= r.value < |catalog| && Eligible(catalog[r.value], recent, tag)
    ensures r.Some? ==> forall j :: i <= j < r.value ==> !Eligible(catalog[j], recent, tag)
    ensures r.None? ==> forall j :: i <= j < |catalog| ==> !Eligible(catalog[j], recent, tag)
    decreases |catalog| - i
  {
    if i == |catalog| then None
    else if Eligible(catalog[i], recent, tag) then Some(i)
    else FirstEligibleFrom(catalog, recent, tag, i + 1)
  }

  function FirstEligible(catalog: seq<Course>, recent: seq<string>, tag: string): Option<nat>
  {
    FirstEligibleFrom(catalog, recent, tag, 0)
  }

  /** A course that is eligible and preceded only by ineligible ones is the one picked. */
  lemma FirstEligibleIs(catalog: seq<Course>, recent: seq<string>, tag: string, i: nat)
    requires i < |catalog| && Eligible(catalog[i], recent, tag)
    requires forall j :: 0 <= j < i ==> !Eligible(catalog[j], recent, tag)
    ensures FirstEligible(catalog, recent, tag) == Some(i)
  {
  }

  /** When no course is eligible, none is picked. */
  lemma NoneEligible(catalog: seq<Course>, recent: seq<string>, tag: string)
    requires forall j :: 0 <= j < |catalog| ==> !Eligible(catalog[j], recent, tag)
    ensures FirstEligible(catalog, recent, tag) == None
  {
  }

  /** The catalog courses whose ids are in `recent`, in catalog order. */
  function Listed(catalog: seq<Course>, recent: seq<string>): (r: seq<Course>)
    ensures |r| <= |catalog|
    ensures forall c :: c in r <==> c in catalog && c.id in recent
  {
    if catalog == [] then []
    else if catalog[0].id in recent then [catalog[0]] + Listed(catalog[1..], recent)
    else Listed(catalog[1..], recent)
  }

  /** Listing keeps catalog order: the listing of a catalog split in two is
      the listing of the first part followed by that of the second, and a
      single course is listed exactly when its id is recent. */
  lemma {:induction false} ListedAppend(a: seq<Course>, b: seq<Course>, recent: seq<string>)
    ensures Listed(a + b, recent) == Listed(a, recent) + Listed(b, recent)
    ensures |a| == 1 ==> Listed(a, recent) == (if a[0].id in recent then a else [])
    decreases |a|
  {
    if a != [] {
      assert (a + b)[0] == a[0] && (a + b)[1..] == a[1..] + b;
      ListedAppend(a[1..], b, recent);
      if a[0].id in recent {
        assert [a[0]] + (Listed(a[1..], recent) + Listed(b, recent)) ==
               ([a[0]] + Listed(a[1..], recent)) + Listed(b, recent);
      }
      if |a| == 1 {
        assert a[1..] == [] && [a[0]] + [] == a;
        assert Listed(a[1..], recent) == [];
      }
    } else {
      assert a + b == b;
    }
  }

  /** The COURSES reply for a window of recent ids. */
  function CoursesView(catalog: seq<Course>, recent: seq<string>): (m: Message)
    ensures m == NoCourses <==> recent == []
    ensures m != NoCourses ==>
      m.RecentCourses? && forall c :: c in m.courses <==> c in catalog && c.id in recent
    ensures m != NoCourses ==>
      forall a, b :: a + b == catalog ==> m.courses == Listed(a, recent) + Listed(b, recent)
  {
    forall a, b | a + b == catalog ensures Listed(catalog, recent) == Listed(a, recent) + Listed(b, recent) {
      ListedAppend(a, b, recent);
    }
    if recent == [] then NoCourses else RecentCourses(Listed(catalog, recent))
  }
}
