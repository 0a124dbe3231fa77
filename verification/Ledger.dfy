/**
  Sums over the users of a reserve.
 */
module Ledger {
  import opened Reserve

  type Users = map<string, UserReserveData>

  function ScaledDebtOf(u: UserReserveData): int {
    u.scaledVariableDebt
  }

  function ScaledClaimOf(u: UserReserveData): int {
    u.scaledLTokenBalance
  }

  function WalletOf(u: UserReserveData): int {
    u.walletBalance
  }

  ghost function SumOf(users: Users, f: UserReserveData -> int): int
    decreases |users|
  {
    if users == map[] then 0
    else
      var k :| k in users;
      f(users[k]) + SumOf(users - {k}, f)
  }

  /** A sum does not depend on which user is taken out first. */
  lemma {:induction false} SumPick(users: Users, f: UserReserveData -> int, k: string)
    requires k in users
    ensures SumOf(users, f) == f(users[k]) + SumOf(users - {k}, f)
    decreases |users|
  {
    var first :| first in users && SumOf(users, f) == f(users[first]) + SumOf(users - {first}, f);
    if first != k {
      SumPick(users - {first}, f, k);
      SumPick(users - {k}, f, first);
      assert users - {first} - {k} == users - {k} - {first};
    }
  }

  /** Changing one user's record changes a sum by exactly that user's difference. */
  lemma SumUpdate(users: Users, f: UserReserveData -> int, k: string, u: UserReserveData)
    requires k in users
    ensures SumOf(users[k := u], f) == SumOf(users, f) - f(users[k]) + f(u)
  {
    SumPick(users, f, k);
    SumPick(users[k := u], f, k);
    assert users[k := u] - {k} == users - {k};
  }

  lemma {:induction false} SumNonNegative(users: Users, f: UserReserveData -> int)
    requires forall k :: k in users ==> 0 <= f(users[k])
    ensures 0 <= SumOf(users, f)
    decreases |users|
  {
    if users != map[] {
      var k :| k in users;
      SumPick(users, f, k);
      SumNonNegative(users - {k}, f);
    }
  }

  lemma MemberAtMostSum(users: Users, f: UserReserveData -> int, k: string)
    requires k in users
    requires forall j :: j in users ==> 0 <= f(users[j])
    ensures f(users[k]) <= SumOf(users, f)
  {
    SumPick(users, f, k);
    SumNonNegative(users - {k}, f);
  }
}
