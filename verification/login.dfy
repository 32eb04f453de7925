/** The login page (pages/Login.tsx): its form state and the decision its
    `handleLogin` takes, which either sets an error message or hands a role
    and a cell to the application's login handler. */
module Login {
  import opened Seqs
  import opened Types
  import App

  /** ADMIN_PASSWORD in constants.ts. */
  const AdminPassword: string := "Gestaodecelulaviver"
  const WrongPasswordError: string := "Senha incorreta para administrador."
  const NoCellError: string := "Selecione uma c\U{00E9}lula para acessar."

  /** The arguments of `onLogin(role, cell)`; the page never passes a third
      (`rememberMe`) argument. */
  datatype LoginCall = LoginCall(role: Role, cell: Option<Cell>)

  /** The outcome of one attempt: the call made, if any, and the error shown
      afterwards. */
  datatype Attempt = Attempt(call: Option<LoginCall>, error: string)

  /** The decision: an admin needs the exact password; anyone else (the
      leader) needs a selected cell, and logs in with the cell of that id,
      or with none if no cell has it. */
  function Decide(role: Role, password: string, selectedCellId: string, cells: seq<Cell>): (a: Attempt)
    ensures a.call.Some? <==> a.error == ""
    ensures a.call == Some(LoginCall(Admin, None)) <==> role == Admin && password == AdminPassword
    ensures a.error == WrongPasswordError <==> role == Admin && password != AdminPassword
    ensures a.error == NoCellError <==> role != Admin && selectedCellId == ""
    ensures (a.call.Some? && a.call.value.role == Leader) <==> role != Admin && selectedCellId != ""
    ensures a.call.Some? && a.call.value.role == Leader ==> a.call.value.cell == FindCell(cells, selectedCellId)
  {
    assert |WrongPasswordError| != |NoCellError|;
    if role == Admin then
      if password == AdminPassword then Attempt(Some(LoginCall(Admin, None)), "")
      else Attempt(None, WrongPasswordError)
    else if selectedCellId == "" then Attempt(None, NoCellError)
    else Attempt(Some(LoginCall(Leader, FindCell(cells, selectedCellId))), "")
  }

  class LoginPage {
    var role: Role
    var password: string
    var selectedCellId: string
    var error: string

    /** The page opens on the leader form, with nothing typed or selected. */
    constructor()
      ensures role == Leader && password == "" && selectedCellId == "" && error == ""
    {
      role, password, selectedCellId, error := Leader, "", "", "";
    }

    /** `handleLogin`: clears the error, then either sets it or makes the
        call; the form's fields are left as they are. */
    method HandleLogin(cells: seq<Cell>) returns (call: Option<LoginCall>)
      modifies this
      ensures call == Decide(role, password, selectedCellId, cells).call
      ensures error == Decide(role, password, selectedCellId, cells).error
      ensures role == old(role) && password == old(password) && selectedCellId == old(selectedCellId)
    {
      error := "";
      if role == Admin {
        if password == AdminPassword {
          call := Some(LoginCall(Admin, None));
        } else {
          error := WrongPasswordError;
          call := None;
        }
      } else {
        if selectedCellId == "" {
          error := NoCellError;
          return None;
        }
        var cell := FindCell(cells, selectedCellId);
        call := Some(LoginCall(Leader, cell));
      }
    }
  }

  /** What a successful attempt does to the application: a session that is
      authenticated and confirmed exactly for the admin, and, since the page
      passes no `rememberMe`, never one that is saved in the browser. */
  lemma AttemptSession(role: Role, password: string, selectedCellId: string, cells: seq<Cell>)
    requires Decide(role, password, selectedCellId, cells).call.Some?
    ensures var c := Decide(role, password, selectedCellId, cells).call.value;
            var s := App.SignedIn(c.role, c.cell);
            && s.isAuthenticated
            && (s.isConfirmed <==> role == Admin)
            && (role == Admin ==> s.cell.None?)
            && (role != Admin ==> s.cell == FindCell(cells, selectedCellId))
  {
  }
}
