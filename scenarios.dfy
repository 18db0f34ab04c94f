/** The two routers working together, as the REST tests drive them: a
    token issued by POST /usuarios/login opens the contact routes, and the
    seeded user can log in. */
module Scenarios {
  import opened Base
  import opened Bcrypt
  import opened UserModel
  import opened UserService
  import opened ContactService
  import Jwt
  import UserController
  import ContactController

  /** Users are only ever appended, so the seeded user stays first, and
      `usuario1` / `senha123` keeps logging in as that user. */
  lemma SeedUserLogsIn(usuarios: seq<User>, salt: Salt)
    requires |usuarios| >= 1 && usuarios[0] == Seed(salt)[0]
    ensures Authenticate(usuarios, "usuario1", "senha123") == Ok(usuarios[0])
    ensures usuarios[0].id == "1"
  {
  }

  /** The token from a successful login, sent as `<scheme> <token>`, lets
      a contact request through as the logged-in user for one hour: both
      routers sign and verify with the same secret. */
  lemma LoginThenAuthorize(usuarios: seq<User>, body: UserController.LoginBody, iat: nat, now: nat, scheme: string)
    requires UserController.Login(usuarios, body, iat).status == 200
    requires ' ' !in scheme
    ensures Filled(body.login) && Filled(body.senha)
    ensures var u := Authenticate(usuarios, body.login.value, body.senha.value).value;
            var token := UserController.Login(usuarios, body, iat).body.token;
            ContactController.Authenticate(Some(scheme + " " + token), now)
              == if now < iat + Jwt.OneHour then ContactController.Next(u.id)
                 else ContactController.Halt(ContactController.Response(401, ContactController.Message(ContactController.BadToken)))
  {
    var u := Authenticate(usuarios, body.login.value, body.senha.value).value;
    ContactController.AuthenticateIssued(scheme, u.id, iat, now);
  }

  /** test/rest/external/contato.test.js: log in as the seeded user, then
      create a contact with `Bearer <token>`. */
  method ContatoTest(salt: Salt, now: nat, id: string)
    returns (loginStatus: nat, createStatus: nat, createMessage: string)
    ensures loginStatus == 200
    ensures createStatus == 201 && createMessage == ContactController.CreatedMessage
  {
    var users := new UserStore(salt);
    var contacts := new ContactStore();
    var body := UserController.LoginBody(Some("usuario1"), Some("senha123"));
    SeedUserLogsIn(users.usuarios, salt);
    var login := UserController.Login(users.usuarios, body, now);
    loginStatus := login.status;
    LoginThenAuthorize(users.usuarios, body, now, now, "Bearer");
    assert "Bearer" + " " == "Bearer ";
    var res := ContactController.Post(contacts, Some("Bearer " + login.body.token),
      ContactBody(None, None, Some("usuario1"), Some("51992413404"), Some("usuario1@gmail.com")), id, now);
    createStatus := res.status;
    createMessage := res.body.mensagem;
  }

  /** test/rest/external/login.test.js: register a second user next to
      the seeded one. */
  method LoginTest(salt: Salt, id: string, salt2: Salt) returns (status: nat, message: string)
    ensures status == 201 && message == UserController.RegisteredMessage
  {
    var users := new UserStore(salt);
    var body := UserBody(Some("usuario2"), Some("51992413404"), Some("usuario2@gmail.com"),
                         Some("usuario2"), Some("senha123"));
    assert !SameLoginOrEmail("usuario2", "usuario2@gmail.com")(users.usuarios[0]);
    var res := UserController.PostRegistro(users, body, id, salt2);
    status := res.status;
    message := res.body.mensagem;
  }

  /** A whole session: register, a wrong and a right password, then
      create, list, delete and list again. */
  method Session(salt: Salt, userId: string, userSalt: Salt, now: nat, contactId: string)
    returns (statuses: seq<nat>, firstListing: seq<Contact>, secondListing: seq<Contact>)
    ensures statuses == [201, 401, 200, 201, 200, 200, 200]
    ensures |firstListing| == 1 && firstListing[0].id == contactId && firstListing[0].usuarioId == userId
    ensures secondListing == []
  {
    var users := new UserStore(salt);
    var contacts := new ContactStore();
    var seeded := users.usuarios;
    assert !SameLoginOrEmail("u1", "u1@example.com")(seeded[0]);
    var reg := UserController.PostRegistro(users,
      UserBody(Some("u1"), Some("5551"), Some("u1@example.com"), Some("u1"), Some("p1")), userId, userSalt);
    assert users.usuarios[1].login == "u1";
    assert !HasLogin("u1")(users.usuarios[0]);
    assert HasLogin("u1")(users.usuarios[1]);

    var wrong := UserController.Login(users.usuarios, UserController.LoginBody(Some("u1"), Some("p0")), now);
    var right := UserController.Login(users.usuarios, UserController.LoginBody(Some("u1"), Some("p1")), now);
    LoginThenAuthorize(users.usuarios, UserController.LoginBody(Some("u1"), Some("p1")), now, now, "Bearer");
    assert "Bearer" + " " == "Bearer ";
    var header := Some("Bearer " + right.body.token);
    assert ContactController.Authenticate(header, now) == ContactController.Next(userId);

    var created := ContactController.Post(contacts, header,
      ContactBody(None, None, Some("c1"), Some("5552"), Some("c1@example.com")), contactId, now);
    var list1 := ContactController.Get(contacts, header, now);
    var c := contacts.contatos[0];
    assert Owned([c][1..], userId) == [];
    assert IsTarget(contactId, userId)(contacts.contatos[0]);
    var deleted := ContactController.Delete(contacts, header, contactId, now);
    var list2 := ContactController.Get(contacts, header, now);

    statuses := [reg.status, wrong.status, right.status, created.status, list1.status, deleted.status, list2.status];
    firstListing := list1.body.contatos;
    secondListing := list2.body.contatos;
  }
}
