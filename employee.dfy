/**
 * The employee session on a shared till: who is signed in with a PIN,
 * whether the screen is locked, and what the current person may do.
 *
 * The database query for the owner's active employees enters as its
 * result (`None` when the query failed). The PIN digest, the random salt
 * source and the browser session id are parameters. Writes to the
 * database and to `sessionStorage` are left out.
 */
module Employees {
  import opened Wrappers
  import opened Strings
  import opened PinSecurity
  import opened RateLimiter

  datatype Role = Admin | Manager | Cashier | Kitchen | Attendant | Delivery

  /** The signed-in employee as the session keeps it. */
  datatype Employee = Employee(id: string, name: string, role: Role, permissions: map<string, bool>)

  /** An `employees` row as the query returns it. */
  datatype EmployeeRecord = EmployeeRecord(id: string, name: string, role: Role,
                                           permissions: Option<map<string, bool>>, pinCode: Option<string>)

  datatype LoginResult = LoginResult(success: bool, error: Option<string>)

  const NotAuthenticated := "Proprietário não autenticado"
  const FetchFailed := "Erro ao buscar funcionários"
  const NoEmployees := "Nenhum funcionário ativo encontrado"

  /** A row whose PIN is set and verifies against `pin`. */
  predicate Matches(e: EmployeeRecord, pin: string, saltBytes: seq<Byte>, digest: string -> seq<Byte>)
  {
    e.pinCode.Some? && e.pinCode.value != [] && PinMatches(pin, e.pinCode.value, saltBytes, digest)
  }

  /** The first row, in query order, whose PIN verifies. */
  function FirstMatch(rows: seq<EmployeeRecord>, pin: string, saltBytes: seq<Byte>, digest: string -> seq<Byte>): (r: Option<nat>)
    ensures r.Some? ==> r.value < |rows| && Matches(rows[r.value], pin, saltBytes, digest)
    ensures r.Some? ==> forall j :: 0 <= j < r.value ==> !Matches(rows[j], pin, saltBytes, digest)
    ensures r.None? ==> forall j :: 0 <= j < |rows| ==> !Matches(rows[j], pin, saltBytes, digest)
  {
    if rows == [] then None
    else if Matches(rows[0], pin, saltBytes, digest) then Some(0)
    else
      var rest := FirstMatch(rows[1..], pin, saltBytes, digest);
      if rest.Some? then Some(rest.value + 1) else None
  }

  /** What the session keeps of a matched row; missing permissions become none at all. */
  function SessionEmployee(e: EmployeeRecord): Employee
  {
    Employee(e.id, e.name, e.role, e.permissions.GetOr(map[]))
  }

  /** `rateLimit.blockRemaining || 0`. */
  function SecondsOrZero(s: Option<int>): int
  {
    if s.Some? && s.value != 0 then s.value else 0
  }

  /** The message for a refused PIN: blocked once nothing is left and a block is running, else the attempts left. */
  function FailureMessage(s: Status): string
  {
    if s.remaining <= 0 && s.blockRemaining.Some? && s.blockRemaining.value != 0
    then "Bloqueado. Aguarde " + FormatBlockTime(s.blockRemaining.value)
    else "PIN inválido. " + IntToString(s.remaining) + " tentativa(s) restante(s)"
  }

  /**
   * The permission rule: nothing while locked, everything for the owner (no
   * employee signed in) and for an admin, otherwise the employee's own flag.
   */
  function PermissionFor(isLocked: bool, activeEmployee: Option<Employee>, permission: string): (ok: bool)
    ensures isLocked ==> !ok
    ensures !isLocked && activeEmployee.None? ==> ok
    ensures !isLocked && activeEmployee.Some? && activeEmployee.value.role == Admin ==> ok
    ensures !isLocked && activeEmployee.Some? && activeEmployee.value.role != Admin ==>
      (ok <==> permission in activeEmployee.value.permissions && activeEmployee.value.permissions[permission])
  {
    !isLocked && (activeEmployee.None? || activeEmployee.value.role == Admin
                  || (permission in activeEmployee.value.permissions && activeEmployee.value.permissions[permission]))
  }

  class Session {
    var activeEmployee: Option<Employee>
    var isLocked: bool
    var hasAdmin: bool
    const limiter: Limiter

    ghost predicate Valid()
      reads this, limiter
    {
      limiter.Valid()
    }

    constructor(limiter: Limiter)
      requires limiter.Valid()
      ensures this.limiter == limiter && Valid()
      ensures activeEmployee == None && !isLocked && !hasAdmin
    {
      this.limiter := limiter;
      activeEmployee := None;
      isLocked := false;
      hasAdmin := false;
    }

    /** `hasPermission`. */
    function HasPermission(permission: string): (ok: bool)
      reads this
      ensures ok == PermissionFor(isLocked, activeEmployee, permission)
    {
      if isLocked then false
      else if activeEmployee.None? then true
      else if activeEmployee.value.role == Admin then true
      else permission in activeEmployee.value.permissions && activeEmployee.value.permissions[permission]
    }

    /** `logoutEmployee`: nobody is signed in and the screen is locked. */
    method LogoutEmployee()
      modifies this
      ensures activeEmployee == None && isLocked && hasAdmin == old(hasAdmin)
      ensures forall p :: !HasPermission(p)
    {
      activeEmployee := None;
      isLocked := true;
    }

    /** `lockScreen`: the same as signing the employee out. */
    method LockScreen()
      modifies this
      ensures activeEmployee == None && isLocked && hasAdmin == old(hasAdmin)
      ensures forall p :: !HasPermission(p)
    {
      LogoutEmployee();
    }

    /** `unlockScreen`: only the lock is lifted. */
    method UnlockScreen()
      modifies this
      ensures !isLocked && activeEmployee == old(activeEmployee) && hasAdmin == old(hasAdmin)
      ensures old(activeEmployee).None? ==> forall p :: HasPermission(p)
    {
      isLocked := false;
    }

    /**
     * `loginWithPin`. Refused without an owner; refused, with nothing read or
     * recorded, while the rate limiter blocks; otherwise the first active
     * employee whose PIN verifies is signed in, and a miss counts as a
     * failed attempt.
     */
    method LoginWithPin(pin: string, hasUser: bool, rows: Option<seq<EmployeeRecord>>, sessionId: string, now: nat,
                        saltBytes: seq<Byte>, digest: string -> seq<Byte>) returns (result: LoginResult)
      requires Valid()
      modifies this, limiter
      ensures Valid()
      ensures !hasUser ==> result == LoginResult(false, Some(NotAuthenticated))
      ensures var status := CheckStatus(old(limiter.store), KeyFor(None, sessionId), now);
        hasUser && !status.allowed ==>
          result == LoginResult(false, Some("Muitas tentativas. Aguarde " + FormatBlockTime(SecondsOrZero(status.blockRemaining))))
      ensures var status := CheckStatus(old(limiter.store), KeyFor(None, sessionId), now);
        hasUser && status.allowed && rows.None? ==> result == LoginResult(false, Some(FetchFailed))
      ensures var status := CheckStatus(old(limiter.store), KeyFor(None, sessionId), now);
        !hasUser || !status.allowed || rows.None? ==>
          limiter.store == old(limiter.store) && hasAdmin == old(hasAdmin)
      ensures var status := CheckStatus(old(limiter.store), KeyFor(None, sessionId), now);
        hasUser && status.allowed && rows.Some? ==>
          (hasAdmin <==> exists k :: 0 <= k < |rows.value| && rows.value[k].role == Admin)
      ensures var status := CheckStatus(old(limiter.store), KeyFor(None, sessionId), now);
        hasUser && status.allowed && rows == Some([]) ==>
          result == LoginResult(false, Some(NoEmployees)) && limiter.store == old(limiter.store)
      ensures var status := CheckStatus(old(limiter.store), KeyFor(None, sessionId), now);
        var key := KeyFor(None, sessionId);
        var e := FailedEntry(GetEntry(old(limiter.store), key, now), now);
        hasUser && status.allowed && rows.Some? && rows.value != []
        && FirstMatch(rows.value, pin, saltBytes, digest).None? ==>
          result == LoginResult(false, Some(FailureMessage(FailedStatus(e, now))))
          && limiter.store == old(limiter.store)[key := e]
      ensures !result.success ==> activeEmployee == old(activeEmployee) && isLocked == old(isLocked)
      ensures var status := CheckStatus(old(limiter.store), KeyFor(None, sessionId), now);
        result.success <==> hasUser && status.allowed && rows.Some? && FirstMatch(rows.value, pin, saltBytes, digest).Some?
      ensures result.success ==>
        var m := FirstMatch(rows.value, pin, saltBytes, digest).value;
        result == LoginResult(true, None)
        && limiter.store == old(limiter.store) - {KeyFor(None, sessionId)}
        && activeEmployee == Some(SessionEmployee(rows.value[m])) && !isLocked
    {
      if !hasUser {
        return LoginResult(false, Some(NotAuthenticated));
      }
      var rateLimit := limiter.CheckRateLimit(None, sessionId, now);
      if !rateLimit.allowed {
        var timeRemaining := FormatBlockTime(SecondsOrZero(rateLimit.blockRemaining));
        return LoginResult(false, Some("Muitas tentativas. Aguarde " + timeRemaining));
      }
      if rows.None? {
        return LoginResult(false, Some(FetchFailed));
      }
      var employees := rows.value;
      hasAdmin := exists k :: 0 <= k < |employees| && employees[k].role == Admin;
      if |employees| == 0 {
        return LoginResult(false, Some(NoEmployees));
      }

      var matched := FindMatch(employees, pin, saltBytes, digest);

      if matched.None? {
        var status := limiter.RecordFailedAttempt(None, sessionId, now);
        return LoginResult(false, Some(FailureMessage(status)));
      }

      limiter.RecordSuccessfulLogin(None, sessionId);
      activeEmployee := Some(SessionEmployee(employees[matched.value]));
      isLocked := false;
      result := LoginResult(true, None);
    }
  }

  /** The loop over the rows: the first one whose PIN is set and verifies, stopping there. */
  method FindMatch(employees: seq<EmployeeRecord>, pin: string, saltBytes: seq<Byte>, digest: string -> seq<Byte>)
    returns (matched: Option<nat>)
    ensures matched == FirstMatch(employees, pin, saltBytes, digest)
  {
    matched := None;
    var i := 0;
    while i < |employees|
      invariant 0 <= i <= |employees|
      invariant forall j :: 0 <= j < i ==> !Matches(employees[j], pin, saltBytes, digest)
    {
      var emp := employees[i];
      if emp.pinCode.Some? && emp.pinCode.value != [] {
        var pinMatches := VerifyPin(pin, emp.pinCode.value, saltBytes, digest);
        if pinMatches {
          matched := Some(i);
          return;
        }
      }
      i := i + 1;
    }
  }
}
