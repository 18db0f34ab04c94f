/** `controllers/contactController.js`: the `autenticar` middleware that
    guards every contact route, and the mapping of each route's service
    result to a status and a JSON body. `now` is the clock `jwt.verify`
    reads, in seconds. */
module ContactController {
  import opened Base
  import opened Text
  import Jwt
  import opened ContactService

  const JwtSecret := "segredo_super_secreto"

  const NoToken := "Token não fornecido."
  const BadToken := "Token inválido."
  const CreatedMessage := "Contato criado com sucesso."
  const UpdatedMessage := "Contato atualizado com sucesso."

  datatype Body =
    | Message(mensagem: string)
    | ContactReply(mensagem: string, contato: Contact)
    | Contacts(contatos: seq<Contact>)

  datatype Response = Response(status: nat, body: Body)

  /** What `autenticar` does with a request: answer it itself, or call
      `next()` with `req.usuarioId` set to the given id. */
  datatype Gate = Halt(response: Response) | Next(usuarioId: string)

  /** `auth.split(' ')[1]`, None where that is `undefined`. */
  function BearerToken(authorization: string): (t: Option<string>)
    ensures t.Some? ==> ' ' !in t.value
  {
    var parts := Split(authorization, ' ');
    if |parts| >= 2 then Some(parts[1]) else None
  }

  /** The token is the word after the first space, whatever the first
      word says. */
  lemma BearerTokenAfterScheme(scheme: string, token: string)
    requires ' ' !in scheme && ' ' !in token
    ensures BearerToken(scheme + " " + token) == Some(token)
  {
    SplitJoin([scheme, token], ' ');
    assert Join([scheme, token], ' ') == scheme + " " + token by {
      assert [scheme, token][1..] == [token];
    }
  }

  /** A header without a space carries no token. */
  lemma BearerTokenWithoutSpace(authorization: string)
    requires ' ' !in authorization
    ensures BearerToken(authorization) == None
  {
    SplitWithoutSeparator(authorization, ' ');
  }

  /** `autenticar(req, res, next)` on the Authorization header. */
  function Authenticate(authorization: Field, now: nat): (g: Gate)
    ensures !Filled(authorization) ==> g == Halt(Response(401, Message(NoToken)))
    ensures Filled(authorization) && g.Halt? ==> g == Halt(Response(401, Message(BadToken)))
    ensures g.Next? <==> Filled(authorization) && BearerToken(authorization.value).Some?
                         && Jwt.Verify(BearerToken(authorization.value).value, JwtSecret, now).Some?
    ensures g.Next? ==> Jwt.Verify(BearerToken(authorization.value).value, JwtSecret, now) == Some(g.usuarioId)
  {
    if !Filled(authorization) then Halt(Response(401, Message(NoToken)))
    else match BearerToken(authorization.value)
      case None => Halt(Response(401, Message(BadToken)))
      case Some(token) =>
        match Jwt.Verify(token, JwtSecret, now)
        case None => Halt(Response(401, Message(BadToken)))
        case Some(id) => Next(id)
  }

  /** A header `<scheme> <token>` holding a token signed with the secret
      for `id` at `iat` lets the request through as `id` for one hour, and
      is answered 401 "Token inválido." after that. */
  lemma {:induction false} AuthenticateIssued(scheme: string, id: string, iat: nat, now: nat)
    requires ' ' !in scheme
    ensures Authenticate(Some(scheme + " " + Jwt.Sign(id, JwtSecret, Jwt.OneHour, iat)), now)
            == if now < iat + Jwt.OneHour then Next(id) else Halt(Response(401, Message(BadToken)))
  {
    var token := Jwt.Sign(id, JwtSecret, Jwt.OneHour, iat);
    BearerTokenAfterScheme(scheme, token);
    Jwt.VerifySign(id, JwtSecret, Jwt.OneHour, iat, now);
  }

  /** POST / once `autenticar` has passed: 400 with the error, or 201. */
  function CreateReply(r: Outcome<Contact>): (res: Response)
    ensures res.status == if r.Ok? then 201 else 400
    ensures r.Err? ==> res.body == Message(r.error)
    ensures r.Ok? ==> res.body == ContactReply(CreatedMessage, r.value)
  {
    match r
    case Err(erro) => Response(400, Message(erro))
    case Ok(contato) => Response(201, ContactReply(CreatedMessage, contato))
  }

  /** PUT /:id: every error, "not found" included, is a 400. */
  function UpdateReply(r: Outcome<Contact>): (res: Response)
    ensures res.status == if r.Ok? then 200 else 400
    ensures r.Err? ==> res.body == Message(r.error)
    ensures r.Ok? ==> res.body == ContactReply(UpdatedMessage, r.value)
  {
    match r
    case Err(erro) => Response(400, Message(erro))
    case Ok(contato) => Response(200, ContactReply(UpdatedMessage, contato))
  }

  /** DELETE /:id: the error is a 404. */
  function DeleteReply(r: Outcome<string>): (res: Response)
    ensures res.status == if r.Ok? then 200 else 404
    ensures res.body == Message(if r.Ok? then r.value else r.error)
  {
    match r
    case Err(erro) => Response(404, Message(erro))
    case Ok(mensagem) => Response(200, Message(mensagem))
  }

  /** POST /contatos. `id` stands for `Date.now().toString()`. */
  method Post(store: ContactStore, authorization: Field, body: ContactBody, id: string, now: nat)
    returns (res: Response)
    modifies store
    ensures Authenticate(authorization, now).Halt?
            ==> res == Authenticate(authorization, now).response && store.contatos == old(store.contatos)
    ensures Authenticate(authorization, now).Next? && !Complete(body)
            ==> res == Response(400, Message(MissingFields)) && store.contatos == old(store.contatos)
    ensures Authenticate(authorization, now).Next? && Complete(body) ==>
              var c := NewContact(body, id, Authenticate(authorization, now).usuarioId);
              res == Response(201, ContactReply(CreatedMessage, c)) && store.contatos == old(store.contatos) + [c]
  {
    match Authenticate(authorization, now)
    case Halt(response) =>
      res := response;
    case Next(usuarioId) =>
      var r := store.Create(body, usuarioId, id);
      res := CreateReply(r);
  }

  /** GET /contatos: the caller's contacts, in store order. */
  method Get(store: ContactStore, authorization: Field, now: nat) returns (res: Response)
    ensures Authenticate(authorization, now).Halt? ==> res == Authenticate(authorization, now).response
    ensures Authenticate(authorization, now).Next? ==>
              res.status == 200 && res.body.Contacts?
              && forall c :: c in res.body.contatos
                   <==> c in store.contatos && c.usuarioId == Authenticate(authorization, now).usuarioId
    ensures Authenticate(authorization, now).Next? ==>
              res.body == Contacts(Owned(store.contatos, Authenticate(authorization, now).usuarioId))
  {
    match Authenticate(authorization, now)
    case Halt(response) =>
      res := response;
    case Next(usuarioId) =>
      res := Response(200, Contacts(Owned(store.contatos, usuarioId)));
  }

  /** PUT /contatos/:id. */
  method Put(store: ContactStore, authorization: Field, id: string, body: ContactBody, now: nat)
    returns (res: Response)
    modifies store
    ensures Authenticate(authorization, now).Halt?
            ==> res == Authenticate(authorization, now).response && store.contatos == old(store.contatos)
    ensures Authenticate(authorization, now).Next?
            && FindIndex(old(store.contatos), IsTarget(id, Authenticate(authorization, now).usuarioId)).None?
            ==> res == Response(400, Message(NotFound)) && store.contatos == old(store.contatos)
    ensures Authenticate(authorization, now).Next?
            && FindIndex(old(store.contatos), IsTarget(id, Authenticate(authorization, now).usuarioId)).Some?
            && !Complete(body)
            ==> res == Response(400, Message(MissingFields)) && store.contatos == old(store.contatos)
    ensures Authenticate(authorization, now).Next?
            && FindIndex(old(store.contatos), IsTarget(id, Authenticate(authorization, now).usuarioId)).Some?
            && Complete(body) ==>
              var i := FindIndex(old(store.contatos), IsTarget(id, Authenticate(authorization, now).usuarioId)).value;
              store.contatos == old(store.contatos)[i := Overwritten(old(store.contatos)[i], body)]
              && res == Response(200, ContactReply(UpdatedMessage, store.contatos[i]))
  {
    match Authenticate(authorization, now)
    case Halt(response) =>
      res := response;
    case Next(usuarioId) =>
      var r := store.Update(id, usuarioId, body);
      res := UpdateReply(r);
  }

  /** DELETE /contatos/:id. */
  method Delete(store: ContactStore, authorization: Field, id: string, now: nat) returns (res: Response)
    modifies store
    ensures Authenticate(authorization, now).Halt?
            ==> res == Authenticate(authorization, now).response && store.contatos == old(store.contatos)
    ensures Authenticate(authorization, now).Next?
            && FindIndex(old(store.contatos), IsTarget(id, Authenticate(authorization, now).usuarioId)).None?
            ==> res == Response(404, Message(NotFound)) && store.contatos == old(store.contatos)
    ensures Authenticate(authorization, now).Next?
            && FindIndex(old(store.contatos), IsTarget(id, Authenticate(authorization, now).usuarioId)).Some? ==>
              var i := FindIndex(old(store.contatos), IsTarget(id, Authenticate(authorization, now).usuarioId)).value;
              store.contatos == old(store.contatos)[..i] + old(store.contatos)[i + 1..]
              && res == Response(200, Message(Deleted))
  {
    match Authenticate(authorization, now)
    case Halt(response) =>
      res := response;
    case Next(usuarioId) =>
      var r := store.Delete(id, usuarioId);
      res := DeleteReply(r);
  }
}
