/** `services/contactService.js`: per-owner contacts over the module-level
    `contatos` array. The array defined in `models/contactModel.js` is
    taken to start empty. */
module ContactService {
  import opened Base

  const MissingFields := "Todos os campos devem ser preenchidos."
  const NotFound := "Contato não encontrado."
  const Deleted := "Contato deletado com sucesso."

  /** A stored contact, tagged with the `usuarioId` of its owner. */
  datatype Contact = Contact(id: string, usuarioId: string, nome: string, telefone: string, email: string)

  /** The body of a create or update request. A client may send `id` and
      `usuarioId` too; the service never uses them. */
  datatype ContactBody = ContactBody(id: Field, usuarioId: Field, nome: Field, telefone: Field, email: Field)

  predicate Complete(d: ContactBody) {
    Filled(d.nome) && Filled(d.telefone) && Filled(d.email)
  }

  /** `validarContato`: the error message, or None (`null`) when the three
      fields are present and non-empty. */
  function ValidateContact(d: ContactBody): (r: Option<string>)
    ensures r.None? <==> Complete(d)
    ensures r.Some? ==> r.value == MissingFields
  {
    if !Filled(d.nome) || !Filled(d.telefone) || !Filled(d.email) then Some(MissingFields) else None
  }

  /** The contact `criarContato` appends: the body's fields, with `id` and
      `usuarioId` written after the spread, so a client-sent `id` or
      `usuarioId` is overridden. */
  function NewContact(d: ContactBody, id: string, usuarioId: string): (c: Contact)
    requires Complete(d)
    ensures c.id == id && c.usuarioId == usuarioId
    ensures c.nome == d.nome.value && c.telefone == d.telefone.value && c.email == d.email.value
  {
    Contact(id, usuarioId, d.nome.value, d.telefone.value, d.email.value)
  }

  /** The contact after `atualizarContato` assigns the three fields. */
  function Overwritten(c: Contact, d: ContactBody): (c': Contact)
    requires Complete(d)
    ensures c'.id == c.id && c'.usuarioId == c.usuarioId
    ensures c'.nome == d.nome.value && c'.telefone == d.telefone.value && c'.email == d.email.value
  {
    c.(nome := d.nome.value, telefone := d.telefone.value, email := d.email.value)
  }

  /** The predicate `atualizarContato` and `deletarContato` search with. */
  function IsTarget(id: string, usuarioId: string): (p: Contact -> bool) {
    (c: Contact) => c.id == id && c.usuarioId == usuarioId
  }

  /** `listarContatos`: `contatos.filter(c => c.usuarioId === usuarioId)`. */
  function Owned(contatos: seq<Contact>, usuarioId: string): (r: seq<Contact>)
    ensures |r| <= |contatos|
    ensures forall c :: c in r <==> c in contatos && c.usuarioId == usuarioId
  {
    if contatos == [] then []
    else
      var rest := Owned(contatos[1..], usuarioId);
      assert forall c :: c in contatos <==> c == contatos[0] || c in contatos[1..];
      if contatos[0].usuarioId == usuarioId then [contatos[0]] + rest else rest
  }

  /** The listing is taken in store order: it distributes over
      concatenation. */
  lemma {:induction false} OwnedAppend(a: seq<Contact>, b: seq<Contact>, usuarioId: string)
    ensures Owned(a + b, usuarioId) == Owned(a, usuarioId) + Owned(b, usuarioId)
  {
    if a != [] {
      assert (a + b)[1..] == a[1..] + b;
      OwnedAppend(a[1..], b, usuarioId);
    } else {
      assert a + b == b;
    }
  }

  lemma OwnedSingle(c: Contact, usuarioId: string)
    ensures Owned([c], usuarioId) == if c.usuarioId == usuarioId then [c] else []
  {
  }

  /** Appending a contact adds it to its owner's listing, at the end, and
      to no other listing. */
  lemma OwnedAfterAppend(contatos: seq<Contact>, c: Contact, usuarioId: string)
    ensures Owned(contatos + [c], usuarioId)
            == Owned(contatos, usuarioId) + (if c.usuarioId == usuarioId then [c] else [])
  {
    OwnedAppend(contatos, [c], usuarioId);
    OwnedSingle(c, usuarioId);
  }

  /** Removing another owner's contact leaves a listing as it was. */
  lemma OwnedAfterRemove(contatos: seq<Contact>, i: nat, usuarioId: string)
    requires i < |contatos| && contatos[i].usuarioId != usuarioId
    ensures Owned(contatos[..i] + contatos[i + 1..], usuarioId) == Owned(contatos, usuarioId)
  {
    var a, x, b := contatos[..i], contatos[i], contatos[i + 1..];
    assert contatos == (a + [x]) + b;
    OwnedAppend(a + [x], b, usuarioId);
    OwnedAppend(a, [x], usuarioId);
    OwnedAppend(a, b, usuarioId);
    OwnedSingle(x, usuarioId);
    assert Owned(a + [x], usuarioId) == Owned(a, usuarioId);
  }

  /** Rewriting the fields of another owner's contact leaves a listing as
      it was. */
  lemma OwnedAfterReplace(contatos: seq<Contact>, i: nat, c: Contact, usuarioId: string)
    requires i < |contatos| && contatos[i].usuarioId != usuarioId && c.usuarioId == contatos[i].usuarioId
    ensures Owned(contatos[i := c], usuarioId) == Owned(contatos, usuarioId)
  {
    var a, x, b := contatos[..i], contatos[i], contatos[i + 1..];
    assert contatos == (a + [x]) + b;
    assert contatos[i := c] == (a + [c]) + b;
    OwnedAppend(a + [x], b, usuarioId);
    OwnedAppend(a, [x], usuarioId);
    OwnedAppend(a + [c], b, usuarioId);
    OwnedAppend(a, [c], usuarioId);
    OwnedSingle(x, usuarioId);
    OwnedSingle(c, usuarioId);
    assert Owned(a + [x], usuarioId) == Owned(a, usuarioId) == Owned(a + [c], usuarioId);
  }

  /** The `contatos` array. `id` stands for `Date.now().toString()`;
      nothing makes it unique, so the searches take the first match. */
  class ContactStore {
    var contatos: seq<Contact>

    constructor ()
      ensures contatos == []
    {
      contatos := [];
    }

    /** `criarContato(dados, usuarioId)`. */
    method Create(dados: ContactBody, usuarioId: string, id: string) returns (r: Outcome<Contact>)
      modifies this
      ensures !Complete(dados) ==> r == Err(MissingFields) && contatos == old(contatos)
      ensures Complete(dados) ==> r == Ok(NewContact(dados, id, usuarioId))
      ensures Complete(dados) ==> contatos == old(contatos) + [r.value]
      ensures Owned(contatos, usuarioId)
              == Owned(old(contatos), usuarioId) + (if r.Ok? then [r.value] else [])
      ensures forall v :: v != usuarioId ==> Owned(contatos, v) == Owned(old(contatos), v)
    {
      var erro := ValidateContact(dados);
      if erro.Some? {
        return Err(erro.value);
      }
      var novo := NewContact(dados, id, usuarioId);
      forall v ensures Owned(contatos + [novo], v)
                       == Owned(contatos, v) + (if novo.usuarioId == v then [novo] else []) {
        OwnedAfterAppend(contatos, novo, v);
      }
      contatos := contatos + [novo];
      r := Ok(novo);
    }

    /** `atualizarContato(id, usuarioId, dados)`: the search comes before
        validation, so a missing contact is reported as not found whatever
        the body holds. */
    method Update(id: string, usuarioId: string, dados: ContactBody) returns (r: Outcome<Contact>)
      modifies this
      ensures FindIndex(old(contatos), IsTarget(id, usuarioId)).None?
              ==> r == Err(NotFound) && contatos == old(contatos)
      ensures FindIndex(old(contatos), IsTarget(id, usuarioId)).Some? && !Complete(dados)
              ==> r == Err(MissingFields) && contatos == old(contatos)
      ensures r.Ok? <==> FindIndex(old(contatos), IsTarget(id, usuarioId)).Some? && Complete(dados)
      ensures r.Ok? ==>
                var i := FindIndex(old(contatos), IsTarget(id, usuarioId)).value;
                contatos == old(contatos)[i := Overwritten(old(contatos)[i], dados)] && r.value == contatos[i]
      ensures |contatos| == |old(contatos)|
      ensures forall k :: 0 <= k < |contatos| ==>
                contatos[k].id == old(contatos)[k].id && contatos[k].usuarioId == old(contatos)[k].usuarioId
      ensures forall k :: 0 <= k < |contatos| && old(contatos)[k].usuarioId != usuarioId ==>
                contatos[k] == old(contatos)[k]
      ensures forall v :: v != usuarioId ==> Owned(contatos, v) == Owned(old(contatos), v)
    {
      var found := FindIndex(contatos, IsTarget(id, usuarioId));
      if found.None? {
        return Err(NotFound);
      }
      var erro := ValidateContact(dados);
      if erro.Some? {
        return Err(erro.value);
      }
      var i := found.value;
      var c := Overwritten(contatos[i], dados);
      forall v | v != usuarioId ensures Owned(contatos[i := c], v) == Owned(contatos, v) {
        OwnedAfterReplace(contatos, i, c, v);
      }
      contatos := contatos[i := c];
      r := Ok(c);
    }

    /** `deletarContato(id, usuarioId)`: `splice` of the first match. */
    method Delete(id: string, usuarioId: string) returns (r: Outcome<string>)
      modifies this
      ensures FindIndex(old(contatos), IsTarget(id, usuarioId)).None?
              ==> r == Err(NotFound) && contatos == old(contatos)
      ensures FindIndex(old(contatos), IsTarget(id, usuarioId)).Some? ==>
                var i := FindIndex(old(contatos), IsTarget(id, usuarioId)).value;
                r == Ok(Deleted) && contatos == old(contatos)[..i] + old(contatos)[i + 1..]
      ensures r.Ok? ==> |contatos| == |old(contatos)| - 1
      ensures forall v :: v != usuarioId ==> Owned(contatos, v) == Owned(old(contatos), v)
    {
      var found := FindIndex(contatos, IsTarget(id, usuarioId));
      if found.None? {
        return Err(NotFound);
      }
      var i := found.value;
      forall v | v != usuarioId ensures Owned(contatos[..i] + contatos[i + 1..], v) == Owned(contatos, v) {
        OwnedAfterRemove(contatos, i, v);
      }
      contatos := contatos[..i] + contatos[i + 1..];
      r := Ok(Deleted);
    }
  }
}
