/** The in-memory session table: an opaque token per logged-in user. The
    random token is a parameter. */
module SessionService {
  import opened Common
  import opened Entities
  import Text

  class Sessions {
    /** token -> the user it was issued to */
    var sessions: map<string, SessionUser>

    constructor()
      ensures sessions == map[]
    {
      sessions := map[];
    }

    /** `getUser`: nothing for a missing or blank token, otherwise the user
        the token was issued to, if any. */
    function GetUser(token: Option<string>): (u: Option<SessionUser>)
      reads this
      ensures token.None? || Text.IsBlank(token.value) ==> u.None?
      ensures u.Some? <==> token.Some? && !Text.IsBlank(token.value) && token.value in sessions
      ensures u.Some? ==> u.value == sessions[token.value]
    {
      if token.None? || Text.IsBlank(token.value) then None
      else if token.value in sessions then Some(sessions[token.value])
      else None
    }

    /** `createSession`: the fresh token now stands for `user`; every other
        token keeps its user. */
    method CreateSession(user: SessionUser, token: string) returns (issued: string)
      modifies this
      ensures issued == token
      ensures sessions == old(sessions)[token := user]
      ensures !Text.IsBlank(token) ==> GetUser(Some(token)) == Some(user)
      ensures forall other :: other != token ==> GetUser(Some(other)) == old(GetUser(Some(other)))
    {
      sessions := sessions[token := user];
      issued := token;
    }

    /** `invalidate`: drops the token; a missing token changes nothing. */
    method Invalidate(token: Option<string>)
      modifies this
      ensures token.None? ==> sessions == old(sessions)
      ensures token.Some? ==> sessions == old(sessions) - {token.value} && GetUser(token).None?
      ensures forall other :: token != Some(other) ==> GetUser(Some(other)) == old(GetUser(Some(other)))
    {
      if token.Some? {
        sessions := sessions - {token.value};
      }
    }
  }
}
