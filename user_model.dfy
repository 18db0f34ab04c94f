/** The in-memory user array (`models/userModel.js`) and the record it holds. */
module UserModel {
  import opened Bcrypt

  /** A stored user: `senha` holds the bcrypt hash, never the password. */
  datatype User = User(id: string, nome: string, telefone: string, email: string, login: string, senha: Digest)

  /** `bcryptjs` work factor used for every stored password. */
  const Rounds: nat := 8

  /** The array the process starts with; `salt` is the one drawn when the
      module is loaded. */
  function Seed(salt: Salt): (usuarios: seq<User>)
    ensures |usuarios| == 1
    ensures usuarios[0].id == "1" && usuarios[0].login == "usuario1" && usuarios[0].email == "usuario1@gmail.com"
    ensures CompareSync("senha123", usuarios[0].senha)
  {
    [User("1", "usuario1", "51992413404", "usuario1@gmail.com", "usuario1", HashSync("senha123", Rounds, salt))]
  }
}
