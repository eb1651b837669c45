/** The `Tutor` table of tutor_app/app.py as an explicit sequence of rows, in
    insertion order. The store is abstract: an insert either commits the new
    row or, when the email column's UNIQUE constraint would be violated, is
    rolled back and leaves the table exactly as it was. */
module TutorStore {

  datatype Option<T> = None | Some(value: T)

  /** One row of the `Tutor` table. */
  datatype Tutor = Tutor(id: nat, name: string, email: string, password: string)

  /** The UNIQUE constraint on the `email` column. */
  ghost predicate UniqueEmails(table: seq<Tutor>) {
    forall i, j :: 0 <= i < j < |table| ==> table[i].email != table[j].email
  }

  /** Auto-assigned keys are positive and grow with insertion order, so they
      are pairwise distinct. */
  ghost predicate IdsIncreasing(table: seq<Tutor>) {
    && (forall i :: 0 <= i < |table| ==> table[i].id >= 1)
    && (forall i, j :: 0 <= i < j < |table| ==> table[i].id < table[j].id)
  }

  /** What every reachable table satisfies. */
  ghost predicate TableValid(table: seq<Tutor>) {
    UniqueEmails(table) && IdsIncreasing(table)
  }

  /** Some row already uses this email (compared exactly, as SQLite's default
      BINARY collation does). */
  predicate EmailTaken(table: seq<Tutor>, email: string) {
    exists t :: t in table && t.email == email
  }

  /** The largest key in the table, 0 when it is empty. */
  function MaxId(table: seq<Tutor>): (m: nat)
    ensures forall t :: t in table ==> t.id <= m
    ensures table != [] ==> exists t :: t in table && t.id == m
    ensures table == [] ==> m == 0
  {
    if table == [] then 0
    else
      var rest := MaxId(table[1..]);
      if table[0].id > rest then table[0].id else rest
  }

  /** The key SQLite gives the next row of an INTEGER PRIMARY KEY column
      declared without AUTOINCREMENT: one more than the largest key present,
      1 in an empty table. */
  function NextId(table: seq<Tutor>): (id: nat)
    ensures id >= 1
    ensures forall t :: t in table ==> t.id < id
    ensures table == [] ==> id == 1
  {
    MaxId(table) + 1
  }

  /** The first row whose email and password both equal the given strings
      exactly (`filter_by(email=..., password=...).first()`). */
  function FindByCredentials(table: seq<Tutor>, email: string, password: string): (r: Option<Tutor>)
    ensures r.Some? ==> r.value in table && r.value.email == email && r.value.password == password
    ensures r.None? <==> forall t :: t in table ==> !(t.email == email && t.password == password)
  {
    if table == [] then None
    else if table[0].email == email && table[0].password == password then Some(table[0])
    else FindByCredentials(table[1..], email, password)
  }

  /** The row with the given key, if any (`get_or_404` before the 404). */
  function FindById(table: seq<Tutor>, id: nat): (r: Option<Tutor>)
    ensures r.Some? ==> r.value in table && r.value.id == id
    ensures r.None? <==> forall t :: t in table ==> t.id != id
  {
    if table == [] then None
    else if table[0].id == id then Some(table[0])
    else FindById(table[1..], id)
  }

  datatype InsertResult = Inserted(table: seq<Tutor>, tutor: Tutor) | IntegrityError

  /** Add a row and commit. A duplicate email raises the store's integrity
      error and the rollback leaves the table untouched; otherwise exactly one
      row is appended, carrying the given fields and a key no existing row
      has. */
  function Insert(table: seq<Tutor>, name: string, email: string, password: string): (r: InsertResult)
    ensures r.IntegrityError? <==> EmailTaken(table, email)
    ensures r.Inserted? ==> r.table == table + [r.tutor]
    ensures r.Inserted? ==> r.tutor.name == name && r.tutor.email == email && r.tutor.password == password
    ensures r.Inserted? ==> r.tutor.id == NextId(table) && forall t :: t in table ==> t.id != r.tutor.id
    ensures r.Inserted? && TableValid(table) ==> TableValid(r.table)
  {
    if EmailTaken(table, email) then IntegrityError
    else
      var t := Tutor(NextId(table), name, email, password);
      assert forall i :: 0 <= i < |table| ==> table[i] in table;
      Inserted(table + [t], t)
  }

  /** Because emails are unique, a login resolves to the one row holding those
      credentials, whatever its position in the table. */
  lemma LoginResolvesUnique(table: seq<Tutor>, t: Tutor)
    requires UniqueEmails(table)
    requires t in table
    ensures FindByCredentials(table, t.email, t.password) == Some(t)
  {
  }

  /** Keys are distinct, so looking up a row's own key finds that row. */
  lemma FindByIdFindsRow(table: seq<Tutor>, t: Tutor)
    requires IdsIncreasing(table)
    requires t in table
    ensures FindById(table, t.id) == Some(t)
  {
  }

  /** Of two sign-ups with one email, the second is refused and the table
      keeps exactly one row with that email: the first one. */
  lemma SecondInsertRejected(table: seq<Tutor>, email: string, name1: string, password1: string,
                             name2: string, password2: string)
    requires TableValid(table)
    requires !EmailTaken(table, email)
    ensures Insert(table, name1, email, password1).Inserted?
    ensures var after := Insert(table, name1, email, password1).table;
      && Insert(after, name2, email, password2) == IntegrityError
      && TableValid(after)
      && (forall t :: t in after && t.email == email ==> t == after[|after| - 1])
      && after[|after| - 1].name == name1
  {
  }
}
