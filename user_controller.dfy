/** `controllers/userController.js`: registration, login with token
    issuance, and the user listing, as status-and-body replies. `now` is
    the clock `jwt.sign` reads, in seconds. */
module UserController {
  import opened Base
  import opened Bcrypt
  import opened UserModel
  import opened UserService
  import Jwt

  const JwtSecret := "segredo_super_secreto"

  const RegisteredMessage := "Usuário registrado com sucesso."
  const CredentialsRequired := "Login e senha são obrigatórios."
  const LoggedInMessage := "Login realizado com sucesso."

  datatype Body =
    | Message(mensagem: string)
    | UserReply(mensagem: string, usuario: PublicUser)
    | TokenReply(mensagem: string, token: string)
    | Users(usuarios: seq<PublicUser>)

  datatype Response = Response(status: nat, body: Body)

  /** The body of a login request. */
  datatype LoginBody = LoginBody(login: Field, senha: Field)

  /** POST /registro: 400 with the service's error, or 201 with the user. */
  function RegisterReply(r: Outcome<PublicUser>): (res: Response)
    ensures res.status == if r.Ok? then 201 else 400
    ensures r.Err? ==> res.body == Message(r.error)
    ensures r.Ok? ==> res.body == UserReply(RegisteredMessage, r.value)
  {
    match r
    case Err(erro) => Response(400, Message(erro))
    case Ok(usuario) => Response(201, UserReply(RegisteredMessage, usuario))
  }

  /** POST /usuarios/registro. `id` and `salt` stand for `Date.now()` and
      the salt `hashSync` draws. */
  method PostRegistro(store: UserStore, body: UserBody, id: string, salt: Salt) returns (res: Response)
    requires store.Valid()
    modifies store
    ensures store.Valid()
    ensures res.status == 201 || res.status == 400
    ensures res.status == 201
            <==> Complete(body) && Existing(old(store.usuarios), body.login.value, body.email.value).None?
    ensures res.status == 400 ==> store.usuarios == old(store.usuarios)
    ensures !Complete(body) ==> res == Response(400, Message(MissingFields))
    ensures Complete(body) && Existing(old(store.usuarios), body.login.value, body.email.value).Some?
            ==> res == Response(400, Message(AlreadyRegistered))
    ensures res.status == 201 ==>
              store.usuarios == old(store.usuarios) + [NewUser(body, id, salt)]
              && res.body.UserReply? && res.body.mensagem == RegisteredMessage
              && SameProfile(res.body.usuario, NewUser(body, id, salt))
  {
    var r := store.Register(body, id, salt);
    res := RegisterReply(r);
  }

  /** POST /usuarios/login. A missing login or password is answered 400
      before the service is asked; a failed check is a 401; success is a
      200 with a token whose `id` claim is the user's id. */
  function Login(usuarios: seq<User>, body: LoginBody, now: nat): (res: Response)
    ensures res.status == 200 || res.status == 400 || res.status == 401
    ensures !Filled(body.login) || !Filled(body.senha) ==> res == Response(400, Message(CredentialsRequired))
    ensures res.status == 401 <==>
              Filled(body.login) && Filled(body.senha)
              && Authenticate(usuarios, body.login.value, body.senha.value).Err?
    ensures res.status == 401 ==> res.body == Message(BadCredentials)
    ensures res.status == 200 ==>
              Filled(body.login) && Filled(body.senha)
              && Authenticate(usuarios, body.login.value, body.senha.value).Ok?
              && res.body == TokenReply(LoggedInMessage,
                   Jwt.Sign(Authenticate(usuarios, body.login.value, body.senha.value).value.id,
                            JwtSecret, Jwt.OneHour, now))
  {
    if !Filled(body.login) || !Filled(body.senha) then
      Response(400, Message(CredentialsRequired))
    else match Authenticate(usuarios, body.login.value, body.senha.value)
      case Err(erro) => Response(401, Message(erro))
      case Ok(usuario) =>
        Response(200, TokenReply(LoggedInMessage, Jwt.Sign(usuario.id, JwtSecret, Jwt.OneHour, now)))
  }

  /** The token a successful login returns verifies, for one hour, to the
      id of the user whose credentials were checked, and then expires. */
  lemma LoginTokenSubject(usuarios: seq<User>, body: LoginBody, now: nat, later: nat)
    requires Login(usuarios, body, now).status == 200
    ensures Filled(body.login) && Filled(body.senha)
    ensures var u := Authenticate(usuarios, body.login.value, body.senha.value).value;
            Jwt.Verify(Login(usuarios, body, now).body.token, JwtSecret, later)
              == if later < now + Jwt.OneHour then Some(u.id) else None
  {
    var u := Authenticate(usuarios, body.login.value, body.senha.value).value;
    Jwt.VerifySign(u.id, JwtSecret, Jwt.OneHour, now, later);
  }

  /** GET /usuarios: exactly `listarUsuarios()`. */
  function ListReply(usuarios: seq<User>): (res: Response)
    ensures res.status == 200 && res.body.Users?
    ensures |res.body.usuarios| == |usuarios|
    ensures forall i :: 0 <= i < |usuarios| ==> SameProfile(res.body.usuarios[i], usuarios[i])
  {
    Response(200, Users(ListUsers(usuarios)))
  }
}
