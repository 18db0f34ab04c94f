/** `services/userService.js`: registration with a presence check and a
    duplicate check, credential check, and the password-free listing, over
    the module-level `usuarios` array. */
module UserService {
  import opened Base
  import opened Bcrypt
  import opened UserModel

  const MissingFields := "Todos os campos devem ser preenchidos."
  const AlreadyRegistered := "Usuário já cadastrado."
  const BadCredentials := "Login ou senha inválidos."

  /** The body of a registration request. */
  datatype UserBody = UserBody(nome: Field, telefone: Field, email: Field, login: Field, senha: Field)

  /** A user as the service hands it out: `senha` set to `undefined`, so
      the field is absent from the JSON the client receives. */
  datatype PublicUser = PublicUser(id: string, nome: string, telefone: string, email: string, login: string)

  predicate SameProfile(p: PublicUser, u: User) {
    p.id == u.id && p.nome == u.nome && p.telefone == u.telefone && p.email == u.email && p.login == u.login
  }

  /** `{ ...u, senha: undefined }` */
  function Blank(u: User): (p: PublicUser)
    ensures SameProfile(p, u)
  {
    PublicUser(u.id, u.nome, u.telefone, u.email, u.login)
  }

  /** No two users share a login, and no two share an email. */
  ghost predicate Unique(usuarios: seq<User>) {
    forall i, j :: 0 <= i < j < |usuarios| ==>
      usuarios[i].login != usuarios[j].login && usuarios[i].email != usuarios[j].email
  }

  predicate Complete(d: UserBody) {
    Filled(d.nome) && Filled(d.telefone) && Filled(d.email) && Filled(d.login) && Filled(d.senha)
  }

  /** `validarDadosUsuario`: the error message, or None (`null`) when all
      five fields are present and non-empty. */
  function ValidateUser(d: UserBody): (r: Option<string>)
    ensures r.None? <==> Complete(d)
    ensures r.Some? ==> r.value == MissingFields
  {
    if !Filled(d.nome) || !Filled(d.telefone) || !Filled(d.email) || !Filled(d.login) || !Filled(d.senha)
    then Some(MissingFields) else None
  }

  function SameLoginOrEmail(login: string, email: string): (p: User -> bool) {
    (u: User) => u.login == login || u.email == email
  }

  /** `usuarioExistente`: the first user with that login or that email. */
  function Existing(usuarios: seq<User>, login: string, email: string): (r: Option<User>)
    ensures r.Some? <==> exists u :: u in usuarios && (u.login == login || u.email == email)
    ensures r.Some? ==> r.value in usuarios && (r.value.login == login || r.value.email == email)
  {
    match FindIndex(usuarios, SameLoginOrEmail(login, email))
    case None => None
    case Some(i) => Some(usuarios[i])
  }

  /** Appending a user whose login and email are both new keeps Unique. */
  lemma AppendKeepsUnique(usuarios: seq<User>, u: User)
    requires Unique(usuarios)
    requires Existing(usuarios, u.login, u.email).None?
    ensures Unique(usuarios + [u])
  {
  }

  function HasLogin(login: string): (p: User -> bool) {
    (u: User) => u.login == login
  }

  /** `autenticarUsuario`: only the first user with the login is tried,
      and an unknown login and a wrong password give the same message. */
  function Authenticate(usuarios: seq<User>, login: string, senha: string): (r: Outcome<User>)
    ensures r.Err? ==> r.error == BadCredentials
    ensures r.Ok? ==> r.value.login == login && CompareSync(senha, r.value.senha)
    ensures r.Ok? <==> exists i :: 0 <= i < |usuarios| && usuarios[i].login == login
                                 && CompareSync(senha, usuarios[i].senha)
                                 && forall j :: 0 <= j < i ==> usuarios[j].login != login
    ensures r.Ok? ==> exists i :: 0 <= i < |usuarios| && usuarios[i] == r.value
                               && forall j :: 0 <= j < i ==> usuarios[j].login != login
  {
    match FindIndex(usuarios, HasLogin(login))
    case None => Err(BadCredentials)
    case Some(i) =>
      if !CompareSync(senha, usuarios[i].senha) then Err(BadCredentials)
      else Ok(usuarios[i])
  }

  /** With unique logins, logging in succeeds exactly when some stored
      user has that login and the password matches its hash. */
  lemma AuthenticateUnique(usuarios: seq<User>, login: string, senha: string)
    requires Unique(usuarios)
    ensures Authenticate(usuarios, login, senha).Ok?
            <==> exists u :: u in usuarios && u.login == login && CompareSync(senha, u.senha)
  {
  }

  /** `listarUsuarios`: every user, in order, with `senha` blanked. */
  function ListUsers(usuarios: seq<User>): (r: seq<PublicUser>)
    ensures |r| == |usuarios|
    ensures forall i :: 0 <= i < |r| ==> SameProfile(r[i], usuarios[i])
  {
    seq(|usuarios|, i requires 0 <= i < |usuarios| => Blank(usuarios[i]))
  }

  /** The record `registrarUsuario` stores: the body's fields, the fresh
      `id`, and the hash of `senha` in place of the password. */
  function NewUser(d: UserBody, id: string, salt: Salt): (u: User)
    requires Complete(d)
    ensures u.id == id && u.nome == d.nome.value && u.telefone == d.telefone.value
    ensures u.email == d.email.value && u.login == d.login.value
    ensures u.senha == HashSync(d.senha.value, Rounds, salt) && CompareSync(d.senha.value, u.senha)
  {
    User(id, d.nome.value, d.telefone.value, d.email.value, d.login.value, HashSync(d.senha.value, Rounds, salt))
  }

  /** The `usuarios` array. `id` and `salt` stand for `Date.now()` and the
      salt `hashSync` draws. */
  class UserStore {
    var usuarios: seq<User>

    ghost predicate Valid()
      reads this
    {
      Unique(usuarios)
    }

    /** The store as `models/userModel.js` creates it. */
    constructor (salt: Salt)
      ensures usuarios == Seed(salt)
      ensures Valid()
    {
      usuarios := Seed(salt);
    }

    /** `registrarUsuario`. */
    method Register(dados: UserBody, id: string, salt: Salt) returns (r: Outcome<PublicUser>)
      requires Valid()
      modifies this
      ensures Valid()
      ensures !Complete(dados) ==> r == Err(MissingFields) && usuarios == old(usuarios)
      ensures Complete(dados) && Existing(old(usuarios), dados.login.value, dados.email.value).Some?
              ==> r == Err(AlreadyRegistered) && usuarios == old(usuarios)
      ensures r.Ok? <==> Complete(dados) && Existing(old(usuarios), dados.login.value, dados.email.value).None?
      ensures r.Ok? ==> usuarios == old(usuarios) + [NewUser(dados, id, salt)]
      ensures r.Ok? ==> SameProfile(r.value, usuarios[|usuarios| - 1])
    {
      var erro := ValidateUser(dados);
      if erro.Some? {
        return Err(erro.value);
      }
      if Existing(usuarios, dados.login.value, dados.email.value).Some? {
        return Err(AlreadyRegistered);
      }
      var novo := NewUser(dados, id, salt);
      AppendKeepsUnique(usuarios, novo);
      usuarios := usuarios + [novo];
      r := Ok(Blank(novo));
    }
  }
}
