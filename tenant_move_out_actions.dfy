/** app/tenant/move-out/actions.ts: the signed-in tenant's active tenancy. */
module TenantMoveOutActions {
  import opened Wrappers
  import opened Types
  import opened Seqs
  import opened Database

  const NotAuthenticated: string := "Not authenticated"

  /** Whether a tenancy is `user`'s and OCCUPIED, the only status that counts as active. */
  predicate IsActiveFor(t: TenancyRow, user: string) {
    t.tenantUserId == user && t.status == Occupied
  }

  /** `.eq('tenant_user_id', user).eq('status', 'OCCUPIED')`. */
  function ActiveTenancies(rows: seq<TenancyRow>, user: string): (r: seq<TenancyRow>)
    ensures forall t :: t in r <==> t in rows && IsActiveFor(t, user)
  {
    Filter(rows, t => IsActiveFor(t, user))
  }

  /**
   * The same query ended by `.single()`. `readFault` is an error of the store itself;
   * otherwise the lookup succeeds exactly when one row qualifies.
   */
  function FindActiveTenancy(rows: seq<TenancyRow>, user: string, readFault: Option<string>): (r: Result<TenancyRow, string>)
    ensures readFault.Some? ==> r == Err(readFault.value)
    ensures readFault.None? ==> (r.Ok? <==> |ActiveTenancies(rows, user)| == 1)
    ensures r.Ok? ==> r.value in rows && IsActiveFor(r.value, user)
    ensures r.Ok? ==> forall t :: t in rows && IsActiveFor(t, user) ==> t == r.value
  {
    if readFault.Some? then Err(readFault.value)
    else
      var active := ActiveTenancies(rows, user);
      var r := Single(active);
      assert r.Ok? ==> r.value in active;
      assert r.Ok? ==> forall t :: t in active ==> t == active[0];
      r
  }

  /** `getTenantActiveTenancy`: `user` is the session's user, None when signed out. */
  function GetTenantActiveTenancy(rows: seq<TenancyRow>, user: Option<string>, readFault: Option<string>): (r: Answer<TenancyRow>)
    ensures user.None? ==> r == Answer(None, Some(NotAuthenticated))
    ensures user.Some? ==> (r.data.Some? <==> r.error.None?)
    ensures r.data.Some? ==> user.Some? && r.data.value in rows && IsActiveFor(r.data.value, user.value)
    ensures user.Some? && readFault.None? ==> (r.data.Some? <==> |ActiveTenancies(rows, user.value)| == 1)
    ensures user.Some? && readFault.Some? ==> r == Answer(None, readFault)
  {
    if user.None? then Answer(None, Some(NotAuthenticated))
    else
      match FindActiveTenancy(rows, user.value, readFault)
      case Ok(t) => Answer(Some(t), None)
      case Err(msg) => Answer(None, Some(msg))
  }

  /** Another user's tenancy, or one of the caller's in any status other than OCCUPIED, is never the answer. */
  lemma OnlyOwnOccupiedTenancy(rows: seq<TenancyRow>, user: string, readFault: Option<string>, t: TenancyRow)
    requires t in rows
    requires t.tenantUserId != user || t.status != Occupied
    ensures GetTenantActiveTenancy(rows, Some(user), readFault).data != Some(t)
  {
  }

  /** When exactly one of the caller's tenancies is OCCUPIED, that one is the answer. */
  lemma {:induction false} UniqueActiveTenancyFound(rows: seq<TenancyRow>, user: string, k: nat)
    requires k < |rows| && IsActiveFor(rows[k], user)
    requires forall i :: 0 <= i < |rows| && i != k ==> !IsActiveFor(rows[i], user)
    ensures GetTenantActiveTenancy(rows, Some(user), None) == Answer(Some(rows[k]), None)
  {
    OnlyMatchFiltered(rows, user, k);
  }

  lemma {:induction false} OnlyMatchFiltered(rows: seq<TenancyRow>, user: string, k: nat)
    requires k < |rows| && IsActiveFor(rows[k], user)
    requires forall i :: 0 <= i < |rows| && i != k ==> !IsActiveFor(rows[i], user)
    ensures ActiveTenancies(rows, user) == [rows[k]]
  {
    if k == 0 {
      NoneMatchFiltered(rows[1..], user);
    } else {
      OnlyMatchFiltered(rows[1..], user, k - 1);
    }
  }

  lemma {:induction false} NoneMatchFiltered(rows: seq<TenancyRow>, user: string)
    requires forall i :: 0 <= i < |rows| ==> !IsActiveFor(rows[i], user)
    ensures ActiveTenancies(rows, user) == []
  {
    if rows != [] {
      NoneMatchFiltered(rows[1..], user);
    }
  }
}
