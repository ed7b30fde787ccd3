/** MatchUserName: completing a typed name to what all the matching users have in common. */
module NameCompletion {
  /** A remote user: the displayed handle, and whether it passes the caller's filter. */
  datatype User = User(displayHandle: string, passesFilter: bool)

  function LowerChar(c: char): char {
    if 'A' <= c <= 'Z' then c - 'A' + 'a' else c
  }

  function Lower(s: string): (t: string)
    ensures |t| == |s|
    ensures forall i :: 0 <= i < |s| ==> t[i] == LowerChar(s[i])
  {
    seq(|s|, i requires 0 <= i < |s| => LowerChar(s[i]))
  }

  predicate IsSpace(c: char) {
    c == ' ' || c == '\t' || c == '\r' || c == '\n'
  }

  function Trim(s: string): string {
    if s == [] then s
    else if IsSpace(s[0]) then Trim(s[1..])
    else if IsSpace(s[|s| - 1]) then Trim(s[..|s| - 1])
    else s
  }

  /** What the typed text is compared with. */
  function Name(u: User): string {
    Trim(Lower(u.displayHandle))
  }

  predicate Matches(u: User, typed: string, filtered: bool) {
    (filtered ==> u.passesFilter) && typed <= Name(u)
  }

  /** The names of the matching users, in iteration order. */
  function Matching(users: seq<User>, typed: string, filtered: bool): (names: seq<string>)
    ensures forall k :: 0 <= k < |names| ==> typed <= names[k]
  {
    if users == [] then []
    else
      var u := users[|users| - 1];
      Matching(users[..|users| - 1], typed, filtered) + if Matches(u, typed, filtered) then [Name(u)] else []
  }

  /** Handles are stored trimmed. */
  predicate Trimmed(users: seq<User>) {
    forall n :: 0 <= n < |users| ==> Trim(users[n].displayHandle) == users[n].displayHandle
  }

  predicate IsCommonPrefix(p: string, names: seq<string>) {
    forall k :: 0 <= k < |names| ==> p <= names[k]
  }

  ghost predicate IsLongestCommonPrefix(p: string, names: seq<string>) {
    IsCommonPrefix(p, names) && forall q :: IsCommonPrefix(q, names) ==> q <= p
  }

  lemma TrimmedEnds(s: string)
    requires s != []
    ensures Trim(s) == s <==> !IsSpace(s[0]) && !IsSpace(s[|s| - 1])
  {
    TrimShortens(s[1..]);
    TrimShortens(s[..|s| - 1]);
  }

  lemma {:induction false} TrimShortens(s: string)
    ensures |Trim(s)| <= |s|
  {
    if s != [] {
      TrimShortens(s[1..]);
      TrimShortens(s[..|s| - 1]);
    }
  }

  lemma NameOfTrimmed(u: User)
    requires Trim(u.displayHandle) == u.displayHandle
    ensures Name(u) == Lower(u.displayHandle)
  {
    if u.displayHandle != [] {
      TrimmedEnds(u.displayHandle);
      TrimmedEnds(Lower(u.displayHandle));
    }
  }

  lemma LowerOfPrefix(s: string, i: nat)
    requires i <= |s|
    ensures Lower(s[..i]) == Lower(s)[..i]
  {
  }

  /** Two characters are compared as equal exactly when they are the same, or the same
      letter of the Latin alphabet in the two cases. */
  lemma CaseIsIgnored(c: char, d: char)
    ensures LowerChar(c) == LowerChar(d) <==>
      || c == d
      || ('A' <= c <= 'Z' && d as int == c as int + 32)
      || ('A' <= d <= 'Z' && c as int == d as int + 32)
  {
    assert 'a' as int == 'A' as int + 32;
  }

  /** User n passes the filter, if there is one, and has a handle that, up to case, is the
      name and begins with what was typed. */
  predicate Bears(users: seq<User>, n: int, name: string, typed: string, filtered: bool) {
    0 <= n < |users| && (filtered ==> users[n].passesFilter) && name == Lower(users[n].displayHandle) && typed <= name
  }

  lemma {:induction false} MatchingIff(users: seq<User>, typed: string, filtered: bool, name: string)
    requires Trimmed(users)
    ensures name in Matching(users, typed, filtered) <==> exists n :: Bears(users, n, name, typed, filtered)
  {
    hide Lower, Trim;
    if users != [] {
      var m := |users| - 1;
      MatchingIff(users[..m], typed, filtered, name);
      NameOfTrimmed(users[m]);
      forall n | 0 <= n < m
        ensures Bears(users, n, name, typed, filtered) == Bears(users[..m], n, name, typed, filtered)
      {
      }
      assert Bears(users, m, name, typed, filtered) <==>
        Matches(users[m], typed, filtered) && Name(users[m]) == name;
    }
  }

  /** One more name cuts the longest common prefix where the two first differ. */
  lemma OneMoreName(p: string, names: seq<string>, name: string, i: nat)
    requires IsLongestCommonPrefix(p, names)
    requires i <= |p| && i <= |name| && p[..i] == name[..i]
    requires i < |p| ==> i == |name| || p[i] != name[i]
    ensures IsLongestCommonPrefix(p[..i], names + [name])
  {
    var all := names + [name];
    forall k | 0 <= k < |all| ensures p[..i] <= all[k] {
      if k < |names| {
        assert p <= names[k];
      }
    }
    forall q | IsCommonPrefix(q, all) ensures q <= p[..i] {
      assert forall k :: 0 <= k < |names| ==> all[k] == names[k];
      assert IsCommonPrefix(q, names);
      assert q <= p && q <= all[|names|];
    }
  }

  /** Chops off what the result and another name do not have in common, and keeps the
      result's case. */
  method Chop(result: string, userName: string, ghost names: seq<string>) returns (chopped: string)
    requires IsLongestCommonPrefix(Lower(result), names)
    ensures chopped <= result
    ensures IsLongestCommonPrefix(Lower(chopped), names + [userName])
  {
    hide IsLongestCommonPrefix, Lower;
    var temp := Lower(result);
    var i := 0;
    while i < |temp| && i < |userName| && temp[i] == userName[i]
      invariant i <= |temp| && i <= |userName| && temp[..i] == userName[..i]
    {
      i := i + 1;
    }
    OneMoreName(temp, names, userName, i);
    LowerOfPrefix(result, i);
    chopped := result[..i];
  }

  predicate FirstMatch(users: seq<User>, typed: string, filtered: bool, n: nat) {
    && n < |users| && Matches(users[n], typed, filtered)
    && forall m :: 0 <= m < n ==> !Matches(users[m], typed, filtered)
  }

  /** The number of matching users and, when there are any, a result that is, up to
      case, the longest common prefix of their names, in the case of the first one. */
  method MatchUserName(users: seq<User>, typed: string, filtered: bool, initial: string)
    returns (matchCount: nat, result: string)
    requires Trimmed(users)
    ensures matchCount == |Matching(users, typed, filtered)|
    ensures matchCount == 0 ==> result == initial
    ensures matchCount > 0 ==>
      IsLongestCommonPrefix(Lower(result), Matching(users, typed, filtered)) && typed <= Lower(result)
    ensures matchCount > 0 ==>
      exists n: nat :: FirstMatch(users, typed, filtered, n) && result <= users[n].displayHandle
  {
    hide Lower, Trim, IsLongestCommonPrefix, Matches;
    matchCount, result := 0, initial;
    ghost var first := 0;
    for n := 0 to |users|
      invariant matchCount == |Matching(users[..n], typed, filtered)|
      invariant matchCount == 0 ==> result == initial && forall m :: 0 <= m < n ==> !Matches(users[m], typed, filtered)
      invariant matchCount > 0 ==> IsLongestCommonPrefix(Lower(result), Matching(users[..n], typed, filtered))
      invariant matchCount > 0 ==> FirstMatch(users, typed, filtered, first) && result <= users[first].displayHandle
    {
      assert users[..n + 1][..n] == users[..n] && users[..n + 1][n] == users[n];
      var next := users[n];
      var userName := Trim(Lower(next.displayHandle));
      NameOfTrimmed(next);
      MatchesIs(next, typed, filtered);
      ghost var names := Matching(users[..n], typed, filtered);
      assert names + [] == names;
      if (!filtered || next.passesFilter) && typed <= userName {
        matchCount := matchCount + 1;
        if matchCount == 1 {
          result := next.displayHandle;
          first := n;
          OnlyName(userName);
          assert names + [userName] == [userName];
        } else {
          result := Chop(result, userName, names);
        }
      }
    }
    assert users[..|users|] == users;
    if matchCount > 0 {
      TypedIsPrefix(Lower(result), users, typed, filtered);
    }
  }

  lemma MatchesIs(u: User, typed: string, filtered: bool)
    ensures Matches(u, typed, filtered) <==> (!filtered || u.passesFilter) && typed <= Name(u)
  {
  }

  lemma OnlyName(name: string)
    ensures IsLongestCommonPrefix(name, [name])
  {
    forall q | IsCommonPrefix(q, [name]) ensures q <= name {
      assert q <= [name][0];
    }
  }

  lemma TypedIsPrefix(p: string, users: seq<User>, typed: string, filtered: bool)
    requires IsLongestCommonPrefix(p, Matching(users, typed, filtered))
    ensures typed <= p
  {
    assert IsCommonPrefix(typed, Matching(users, typed, filtered));
  }

  /** Equal sets of names have one longest common prefix. */
  lemma SameNamesSamePrefix(p: string, names: seq<string>, q: string, others: seq<string>)
    requires IsLongestCommonPrefix(p, names) && IsLongestCommonPrefix(q, others)
    requires multiset(names) == multiset(others)
    ensures p == q
  {
    assert IsCommonPrefix(p, others) by {
      forall k | 0 <= k < |others| ensures p <= others[k] {
        assert others[k] in multiset(names);
        assert others[k] in names;
      }
    }
    assert IsCommonPrefix(q, names) by {
      forall k | 0 <= k < |names| ensures q <= names[k] {
        assert names[k] in multiset(others);
        assert names[k] in others;
      }
    }
  }

  lemma {:induction false} MatchingConcat(a: seq<User>, b: seq<User>, typed: string, filtered: bool)
    ensures Matching(a + b, typed, filtered) == Matching(a, typed, filtered) + Matching(b, typed, filtered)
  {
    hide Matches;
    if b == [] {
      assert a + b == a;
    } else {
      MatchingConcat(a, b[..|b| - 1], typed, filtered);
      assert (a + b)[..|a + b| - 1] == a + b[..|b| - 1];
    }
  }

  lemma SameWithout(front: seq<User>, left: seq<User>, u: User, right: seq<User>)
    requires multiset(front + [u]) == multiset(left + ([u] + right))
    ensures multiset(front) == multiset(left + right)
  {
    assert multiset(front) == multiset(front + [u]) - multiset{u};
    assert multiset(left + right) == multiset(left + ([u] + right)) - multiset{u};
  }

  lemma MatchingWithout(left: seq<User>, u: User, right: seq<User>, typed: string, filtered: bool)
    ensures multiset(Matching(left + ([u] + right), typed, filtered)) ==
      multiset(Matching(left + right, typed, filtered)) + multiset(Matching([u], typed, filtered))
  {
    hide Matching;
    MatchingConcat(left, right, typed, filtered);
    MatchingConcat(left, [u] + right, typed, filtered);
    MatchingConcat([u], right, typed, filtered);
  }

  /** Users in another order give the same names. */
  lemma {:induction false} SameUsersSameNames(users: seq<User>, others: seq<User>, typed: string, filtered: bool)
    requires multiset(users) == multiset(others)
    ensures multiset(Matching(users, typed, filtered)) == multiset(Matching(others, typed, filtered))
    decreases |users|
  {
    hide Matching;
    if users == [] {
      assert |others| == |multiset(others)| == 0;
      assert others == users;
    } else {
      var n := |users| - 1;
      var u := users[n];
      assert users == users[..n] + [u];
      assert u in multiset(others);
      var k :| 0 <= k < |others| && others[k] == u;
      var left, right := others[..k], others[k + 1..];
      assert others == left + ([u] + right);
      SameWithout(users[..n], left, u, right);
      SameUsersSameNames(users[..n], left + right, typed, filtered);
      MatchingWithout(left, u, right, typed, filtered);
      MatchingConcat(users[..n], [u], typed, filtered);
    }
  }

  /** Count and result do not depend, the result up to case, on the order in which the
      users come: `p` and `q` stand for the lower-cased results of two calls. */
  lemma OrderDoesNotMatter(users: seq<User>, others: seq<User>, typed: string, filtered: bool, p: string, q: string)
    requires multiset(users) == multiset(others)
    ensures var names, names' := Matching(users, typed, filtered), Matching(others, typed, filtered);
            && |names| == |names'|
            && (IsLongestCommonPrefix(p, names) && IsLongestCommonPrefix(q, names') ==> p == q)
  {
    hide IsLongestCommonPrefix, Matches;
    var names, names' := Matching(users, typed, filtered), Matching(others, typed, filtered);
    SameUsersSameNames(users, others, typed, filtered);
    assert |names| == |multiset(names)| == |multiset(names')| == |names'|;
    if IsLongestCommonPrefix(p, names) && IsLongestCommonPrefix(q, names') {
      SameNamesSamePrefix(p, names, q, names');
    }
  }
}
