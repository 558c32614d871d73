/** The account list page: the account record and the client-side filter
    that the search bar (employee id, name) and the status selector drive.
    The filter is a pure function of the record list and the three inputs;
    it builds a new list and leaves the record list as it was. */
module Accounts {
  import opened Text

  /** One row of the account table. `createdAt` is display text only. */
  datatype Account = Account(
    id: int,
    employeeId: string,
    name: string,
    isAdmin: bool,
    isActive: bool,
    createdAt: string)

  /** The three values the status selector offers. Any other string is
      accepted by the filter and then matches no record. */
  const StatusAll: string := "all"
  const StatusActive: string := "active"
  const StatusInactive: string := "inactive"

  /** Case-insensitive substring test of one record field against one query:
      the empty query passes every field, a query longer than the field
      passes none. */
  predicate MatchesText(field: string, query: string)
    ensures query == "" ==> MatchesText(field, query)
    ensures MatchesText(field, query) ==> |query| <= |field|
  {
    Contains(ToLower(field), ToLower(query))
  }

  /** The status test: 'all' always passes, 'active' needs the active flag,
      'inactive' needs it cleared; no other value passes. */
  predicate MatchesStatus(statusFilter: string, isActive: bool)
    ensures statusFilter == StatusAll ==> MatchesStatus(statusFilter, isActive)
    ensures statusFilter != StatusAll ==>
              (MatchesStatus(statusFilter, isActive) <==> statusFilter == (if isActive then StatusActive else StatusInactive))
  {
    statusFilter == StatusAll
    || (statusFilter == StatusActive && isActive)
    || (statusFilter == StatusInactive && !isActive)
  }

  /** The test a record must pass to stay in the table: all three at once.
      With both search texts empty only the status test is left. */
  predicate Matches(a: Account, searchEmployeeId: string, searchName: string, statusFilter: string)
    ensures searchEmployeeId == "" && searchName == "" ==>
              (Matches(a, searchEmployeeId, searchName, statusFilter) <==> MatchesStatus(statusFilter, a.isActive))
  {
    MatchesText(a.employeeId, searchEmployeeId)
    && MatchesText(a.name, searchName)
    && MatchesStatus(statusFilter, a.isActive)
  }

  /** The rows the table shows: the records that pass `Matches`, in list order. */
  function FilterAccounts(accounts: seq<Account>, searchEmployeeId: string, searchName: string, statusFilter: string)
    : (r: seq<Account>)
    ensures |r| <= |accounts|
    ensures forall a :: a in r ==> a in accounts && Matches(a, searchEmployeeId, searchName, statusFilter)
  {
    if accounts == [] then []
    else
      var rest := FilterAccounts(accounts[1..], searchEmployeeId, searchName, statusFilter);
      if Matches(accounts[0], searchEmployeeId, searchName, statusFilter) then [accounts[0]] + rest else rest
  }

  /** `sub` is obtained from `s` by deleting elements, keeping the order of the rest. */
  predicate IsSubsequence<T(==)>(sub: seq<T>, s: seq<T>)
    decreases |s|
  {
    if sub == [] then true
    else if s == [] then false
    else (sub[0] == s[0] && IsSubsequence(sub[1..], s[1..])) || IsSubsequence(sub, s[1..])
  }

  lemma {:induction false} SubsequenceLength<T>(sub: seq<T>, s: seq<T>)
    requires IsSubsequence(sub, s)
    ensures |sub| <= |s|
    decreases |s|
  {
    if sub != [] {
      if sub[0] == s[0] && IsSubsequence(sub[1..], s[1..]) {
        SubsequenceLength(sub[1..], s[1..]);
      } else {
        SubsequenceLength(sub, s[1..]);
      }
    }
  }

  /** Every element of a subsequence is an element of the sequence. */
  lemma {:induction false} SubsequenceMembers<T>(sub: seq<T>, s: seq<T>, x: T)
    requires IsSubsequence(sub, s) && x in sub
    ensures x in s
    decreases |s|
  {
    if sub[0] == s[0] && IsSubsequence(sub[1..], s[1..]) {
      if x != sub[0] {
        SubsequenceMembers(sub[1..], s[1..], x);
      }
    } else {
      SubsequenceMembers(sub, s[1..], x);
    }
  }

  /** No two records of the list share an id. */
  predicate IdsUnique(s: seq<Account>) {
    forall i, j :: 0 <= i < j < |s| ==> s[i].id != s[j].id
  }

  /** Deleting records from a list with unique ids leaves the ids unique. */
  lemma {:induction false} SubsequenceKeepsUniqueIds(sub: seq<Account>, s: seq<Account>)
    requires IsSubsequence(sub, s) && IdsUnique(s)
    ensures IdsUnique(sub)
    decreases |s|
  {
    if sub != [] {
      assert IdsUnique(s[1..]) by {
        forall i, j | 0 <= i < j < |s| - 1
          ensures s[1..][i].id != s[1..][j].id
        {
          assert s[1..][i] == s[i + 1] && s[1..][j] == s[j + 1];
        }
      }
      if sub[0] == s[0] && IsSubsequence(sub[1..], s[1..]) {
        SubsequenceKeepsUniqueIds(sub[1..], s[1..]);
        forall j | 0 < j < |sub|
          ensures sub[0].id != sub[j].id
        {
          assert sub[j] == sub[1..][j - 1];
          SubsequenceMembers(sub[1..], s[1..], sub[j]);
          var k :| 0 <= k < |s[1..]| && s[1..][k] == sub[j];
          assert s[k + 1] == sub[j];
        }
      } else {
        SubsequenceKeepsUniqueIds(sub, s[1..]);
      }
    }
  }

  /** The filtered rows keep the order of the record list. */
  lemma {:induction false} FilterIsSubsequence(accounts: seq<Account>, searchEmployeeId: string, searchName: string, statusFilter: string)
    ensures IsSubsequence(FilterAccounts(accounts, searchEmployeeId, searchName, statusFilter), accounts)
  {
    if accounts != [] {
      var r := FilterAccounts(accounts, searchEmployeeId, searchName, statusFilter);
      var rest := FilterAccounts(accounts[1..], searchEmployeeId, searchName, statusFilter);
      FilterIsSubsequence(accounts[1..], searchEmployeeId, searchName, statusFilter);
      if Matches(accounts[0], searchEmployeeId, searchName, statusFilter) {
        assert r[0] == accounts[0] && r[1..] == rest;
      } else {
        assert r == rest;
        if r != [] {
          assert IsSubsequence(r, accounts[1..]);
        }
      }
    }
  }

  /** The table stays keyed by id: when the record list has unique ids, so
      has every filtered result. */
  lemma FilterKeepsUniqueIds(accounts: seq<Account>, searchEmployeeId: string, searchName: string, statusFilter: string)
    requires IdsUnique(accounts)
    ensures IdsUnique(FilterAccounts(accounts, searchEmployeeId, searchName, statusFilter))
  {
    FilterIsSubsequence(accounts, searchEmployeeId, searchName, statusFilter);
    SubsequenceKeepsUniqueIds(FilterAccounts(accounts, searchEmployeeId, searchName, statusFilter), accounts);
  }

  /** A record is shown exactly when it is in the list and passes all three tests. */
  lemma {:induction false} FilterMembership(accounts: seq<Account>, searchEmployeeId: string, searchName: string, statusFilter: string, a: Account)
    ensures a in FilterAccounts(accounts, searchEmployeeId, searchName, statusFilter)
            <==> a in accounts && Matches(a, searchEmployeeId, searchName, statusFilter)
  {
    if accounts != [] {
      FilterMembership(accounts[1..], searchEmployeeId, searchName, statusFilter, a);
      assert accounts == [accounts[0]] + accounts[1..];
    }
  }

  /** Each record occurs in the result as often as in the list when it
      passes the tests, and not at all otherwise. */
  lemma {:induction false} FilterMultiplicity(accounts: seq<Account>, searchEmployeeId: string, searchName: string, statusFilter: string, a: Account)
    ensures multiset(FilterAccounts(accounts, searchEmployeeId, searchName, statusFilter))[a]
            == if Matches(a, searchEmployeeId, searchName, statusFilter) then multiset(accounts)[a] else 0
  {
    if accounts != [] {
      FilterMultiplicity(accounts[1..], searchEmployeeId, searchName, statusFilter, a);
      assert accounts == [accounts[0]] + accounts[1..];
    }
  }

  /** Empty search fields and status 'all' show the whole list, in order. */
  lemma {:induction false} FilterEmptyQueryIsIdentity(accounts: seq<Account>)
    ensures FilterAccounts(accounts, "", "", StatusAll) == accounts
  {
    if accounts != [] {
      assert ToLower("") == "";
      ContainsEmpty(ToLower(accounts[0].employeeId));
      ContainsEmpty(ToLower(accounts[0].name));
      FilterEmptyQueryIsIdentity(accounts[1..]);
      assert accounts == [accounts[0]] + accounts[1..];
    }
  }

  /** The records of `s` whose active flag equals `active`, in order. */
  function WithActiveFlag(s: seq<Account>, active: bool): (r: seq<Account>)
    ensures forall a :: a in r ==> a in s && a.isActive == active
  {
    if s == [] then []
    else if s[0].isActive == active then [s[0]] + WithActiveFlag(s[1..], active)
    else WithActiveFlag(s[1..], active)
  }

  /** 'active' and 'inactive' narrow the 'all' result to the records with
      the active flag set, respectively cleared; order is kept. */
  lemma {:induction false} StatusNarrowsAll(accounts: seq<Account>, searchEmployeeId: string, searchName: string)
    ensures FilterAccounts(accounts, searchEmployeeId, searchName, StatusActive)
            == WithActiveFlag(FilterAccounts(accounts, searchEmployeeId, searchName, StatusAll), true)
    ensures FilterAccounts(accounts, searchEmployeeId, searchName, StatusInactive)
            == WithActiveFlag(FilterAccounts(accounts, searchEmployeeId, searchName, StatusAll), false)
  {
    if accounts != [] {
      StatusNarrowsAll(accounts[1..], searchEmployeeId, searchName);
    }
  }

  /** For fixed text queries, 'active' and 'inactive' split the 'all' result:
      no record is in both, and together they hold every row of it exactly
      as often as it occurs there. */
  lemma {:induction false} StatusPartition(accounts: seq<Account>, searchEmployeeId: string, searchName: string)
    ensures forall a :: !(a in FilterAccounts(accounts, searchEmployeeId, searchName, StatusActive)
                          && a in FilterAccounts(accounts, searchEmployeeId, searchName, StatusInactive))
    ensures multiset(FilterAccounts(accounts, searchEmployeeId, searchName, StatusActive))
            + multiset(FilterAccounts(accounts, searchEmployeeId, searchName, StatusInactive))
            == multiset(FilterAccounts(accounts, searchEmployeeId, searchName, StatusAll))
  {
    if accounts != [] {
      StatusPartition(accounts[1..], searchEmployeeId, searchName);
    }
  }

  /** A status value other than the three the selector offers hides every record. */
  lemma {:induction false} UnknownStatusIsEmpty(accounts: seq<Account>, searchEmployeeId: string, searchName: string, statusFilter: string)
    requires statusFilter != StatusAll && statusFilter != StatusActive && statusFilter != StatusInactive
    ensures FilterAccounts(accounts, searchEmployeeId, searchName, statusFilter) == []
  {
    if accounts != [] {
      UnknownStatusIsEmpty(accounts[1..], searchEmployeeId, searchName, statusFilter);
    }
  }

  /** Queries that agree up to ASCII case select the same rows, so a query
      may be typed in any case. */
  lemma {:induction false} FilterIgnoresQueryCase(accounts: seq<Account>, id1: string, id2: string, name1: string, name2: string, statusFilter: string)
    requires ToLower(id1) == ToLower(id2) && ToLower(name1) == ToLower(name2)
    ensures FilterAccounts(accounts, id1, name1, statusFilter) == FilterAccounts(accounts, id2, name2, statusFilter)
  {
    if accounts != [] {
      FilterIgnoresQueryCase(accounts[1..], id1, id2, name1, name2, statusFilter);
    }
  }

  /** Records whose fields agree up to ASCII case pass the tests alike. */
  lemma RecordCaseIrrelevant(a: Account, b: Account, searchEmployeeId: string, searchName: string, statusFilter: string)
    requires ToLower(a.employeeId) == ToLower(b.employeeId) && ToLower(a.name) == ToLower(b.name)
    requires a.isActive == b.isActive
    ensures Matches(a, searchEmployeeId, searchName, statusFilter) == Matches(b, searchEmployeeId, searchName, statusFilter)
  {
  }

  /** The four records the page ships with. */
  const MockData: seq<Account> := [
    Account(1, "EMP001", "김철수", true, true, "2024-01-15"),
    Account(2, "EMP002", "이영희", false, true, "2024-01-16"),
    Account(3, "EMP003", "박지민", false, false, "2024-01-17"),
    Account(4, "EMP004", "최수진", true, true, "2024-01-18")
  ]

  /** The mock records have distinct ids, 1 to 4. */
  lemma MockIdsUnique()
    ensures IdsUnique(MockData)
    ensures forall k :: 0 <= k < |MockData| ==> MockData[k].id == k + 1
  {
  }

  /** Status 'inactive' with empty search fields shows only record 3. */
  lemma MockInactiveScenario()
    ensures FilterAccounts(MockData, "", "", StatusInactive) == [MockData[2]]
  {
  }

  /** A six-character employee id matches the query "emp001" exactly when
      it lower-cases to "emp001". */
  lemma SixCharIdQuery(id: string)
    requires |id| == 6
    ensures MatchesText(id, "emp001") <==> ToLower(id) == "emp001"
  {
    ToLowerOfLowerIsSelf("emp001");
    ContainsSameLength(ToLower(id), "emp001");
  }

  /** Whether a mock record passes the query "emp001" with an empty name
      query and status 'all'. */
  lemma MockRowMatchesEmp001(k: nat)
    requires k < |MockData|
    ensures Matches(MockData[k], "emp001", "", StatusAll) <==> k == 0
  {
    var a := MockData[k];
    assert ToLower("") == "";
    ContainsEmpty(ToLower(a.name));
    SixCharIdQuery(a.employeeId);
    var low := ToLower(a.employeeId);
    assert low[5] == a.employeeId[5];
    if k == 0 {
      assert low == "emp001";
    }
  }

  /** The lower-case query "emp001" finds exactly the record with employee
      id "EMP001". */
  lemma MockCaseInsensitiveScenario()
    ensures FilterAccounts(MockData, "emp001", "", StatusAll) == [MockData[0]]
  {
    var d := MockData;
    MockRowMatchesEmp001(3);
    assert d[3..][1..] == [];
    assert FilterAccounts(d[3..], "emp001", "", StatusAll) == [];
    MockRowMatchesEmp001(2);
    assert d[2..][1..] == d[3..];
    assert FilterAccounts(d[2..], "emp001", "", StatusAll) == [];
    MockRowMatchesEmp001(1);
    assert d[1..][1..] == d[2..];
    assert FilterAccounts(d[1..], "emp001", "", StatusAll) == [];
    MockRowMatchesEmp001(0);
  }
}
