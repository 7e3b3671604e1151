/**
 * The accounts table: the initials badge of each row, the status label, and
 * which of the loading placeholder, the rows and the empty state are shown.
 */
module UserTable {
  import opened Text
  import opened UserTypes

  /** `word.charAt(0).toUpperCase()`: the upper-cased first character, or
      nothing for an empty word. */
  function FirstUpper(word: string): (r: string)
    ensures |r| <= 1
    ensures word == [] <==> r == []
    ensures word != [] ==> r == [UpperChar(word[0])]
  {
    if word == [] then [] else [UpperChar(word[0])]
  }

  /** `join('')`. */
  function Concat(parts: seq<string>): (r: string)
    ensures (forall k :: 0 <= k < |parts| ==> |parts[k]| <= 1) ==> |r| <= |parts|
  {
    if parts == [] then [] else parts[0] + Concat(parts[1..])
  }

  /** The initials of a name: the first character, upper-cased, of each of
      the first two pieces of the name split on single spaces, joined. */
  function Initials(nome: string): (r: string)
    ensures |r| <= 2
  {
    InitialsOf(Split(nome, ' '))
  }

  /** `.slice(0, 2).map(first character upper-cased).join('')`. */
  function InitialsOf(pieces: seq<string>): (r: string)
    ensures |r| <= 2
  {
    var firstTwo := if |pieces| <= 2 then pieces else pieces[..2];
    Concat(seq(|firstTwo|, i requires 0 <= i < |firstTwo| => FirstUpper(firstTwo[i])))
  }

  /** Only the first two pieces matter. */
  lemma {:induction false} InitialsOfPieces(pieces: seq<string>)
    ensures |pieces| == 1 ==> InitialsOf(pieces) == FirstUpper(pieces[0])
    ensures |pieces| >= 2 ==> InitialsOf(pieces) == FirstUpper(pieces[0]) + FirstUpper(pieces[1])
  {
    var firstTwo := if |pieces| <= 2 then pieces else pieces[..2];
    var firsts := seq(|firstTwo|, i requires 0 <= i < |firstTwo| => FirstUpper(firstTwo[i]));
    if |pieces| == 1 {
      assert Concat(firsts) == firsts[0] + Concat([]);
    } else if |pieces| >= 2 {
      assert firsts[1..] == [firsts[1]];
      assert Concat(firsts[1..]) == firsts[1] + Concat([]);
    }
  }

  /** Two words and whatever follows the second space: the initials of the
      two words, the rest ignored. */
  lemma {:induction false} InitialsOfTwoWords(a: string, b: string, rest: string)
    requires ' ' !in a && ' ' !in b && a != [] && b != []
    ensures Initials(a + [' '] + b + [' '] + rest) == [UpperChar(a[0]), UpperChar(b[0])]
  {
    SplitAtFirst(b, ' ', rest);
    SplitAtFirst(a, ' ', b + [' '] + rest);
    assert a + [' '] + b + [' '] + rest == a + [' '] + (b + [' '] + rest);
    InitialsOfPieces([a, b] + Split(rest, ' '));
    assert [a] + ([b] + Split(rest, ' ')) == [a, b] + Split(rest, ' ');
  }

  /** Exactly two words. */
  lemma {:induction false} InitialsOfFullName(a: string, b: string)
    requires ' ' !in a && ' ' !in b && a != [] && b != []
    ensures Initials(a + [' '] + b) == [UpperChar(a[0]), UpperChar(b[0])]
  {
    SplitAtFirst(a, ' ', b);
    assert Split(b, ' ') == [b];
    assert [a] + [b] == [a, b];
    InitialsOfPieces([a, b]);
  }

  /** A single word gives its one initial; the empty name gives none. */
  lemma {:induction false} InitialsOfOneWord(a: string)
    requires ' ' !in a
    ensures Initials(a) == FirstUpper(a)
    ensures a == [] ==> Initials(a) == []
  {
    assert Split(a, ' ') == [a];
    InitialsOfPieces([a]);
  }

  /** A leading space makes an empty first piece, which contributes nothing:
      only the word after it is used. */
  lemma {:induction false} InitialsAfterLeadingSpace(b: string, rest: string)
    requires ' ' !in b
    ensures Initials([' '] + b + [' '] + rest) == FirstUpper(b)
  {
    var tail := b + [' '] + rest;
    SplitAtFirst(b, ' ', rest);
    assert Split(tail, ' ') == [b] + Split(rest, ' ');
    var name := [' '] + b + [' '] + rest;
    assert name == [] + [' '] + tail;
    SplitAtFirst([], ' ', tail);
    var pieces := Split(name, ' ');
    assert pieces == [[]] + ([b] + Split(rest, ' '));
    assert pieces[0] == [] && pieces[1] == b;
    InitialsOfPieces(pieces);
    assert FirstUpper([]) == [];
  }

  /** The status button's text. */
  function StatusLabel(ativo: bool): (text: string)
    ensures text == "Ativo" <==> ativo
    ensures !ativo <==> text == "Inativo"
  {
    if ativo then "Ativo" else "Inativo"
  }

  /** What one row shows (the creation date is left as the timestamp). */
  datatype Row = Row(id: string, initials: string, nome: string, email: string, perfil: string, createdAt: int, status: string)

  function RowOf(u: User): (row: Row)
    ensures row.id == u.id && row.nome == u.nome && row.email == u.email && row.createdAt == u.createdAt
    ensures row.initials == Initials(u.nome) && |row.initials| <= 2
    ensures row.perfil == RoleLabel(u.role)
    ensures row.status == StatusLabel(u.ativo)
  {
    Row(u.id, Initials(u.nome), u.nome, u.email, RoleLabel(u.role), u.createdAt, StatusLabel(u.ativo))
  }

  /** The table body: the placeholder row, the user rows, and the empty state
      below the table. */
  datatype TableView = TableView(loadingPlaceholder: bool, rows: seq<Row>, emptyState: bool)

  function Render(users: seq<User>, loading: bool): (view: TableView)
    ensures view.loadingPlaceholder <==> loading
    ensures view.emptyState <==> !loading && |users| == 0
    ensures loading ==> view.rows == []
    ensures !loading ==> |view.rows| == |users| && forall i :: 0 <= i < |users| ==> view.rows[i] == RowOf(users[i])
  {
    TableView(loading, if loading then [] else seq(|users|, i requires 0 <= i < |users| => RowOf(users[i])), !loading && |users| == 0)
  }

  /** At most one of placeholder, rows and empty state is on screen, and
      something always is. */
  lemma {:induction false} ExactlyOneBodyState(users: seq<User>, loading: bool)
    ensures var v := Render(users, loading);
      (v.loadingPlaceholder && v.rows == [] && !v.emptyState)
      || (!v.loadingPlaceholder && v.rows != [] && !v.emptyState)
      || (!v.loadingPlaceholder && v.rows == [] && v.emptyState)
  {
    var v := Render(users, loading);
    if !loading && |users| > 0 {
      assert v.rows[0] == RowOf(users[0]);
    }
  }

  /** Every listed account has its row, and every row belongs to a listed
      account. */
  lemma {:induction false} RowsAreTheUsers(users: seq<User>, u: User)
    ensures u in users ==> RowOf(u) in Render(users, false).rows
    ensures forall row :: row in Render(users, false).rows ==> exists i :: 0 <= i < |users| && row == RowOf(users[i])
  {
    var rows := Render(users, false).rows;
    if u in users {
      var i :| 0 <= i < |users| && users[i] == u;
      assert rows[i] == RowOf(u);
    }
    forall row | row in rows
      ensures exists i :: 0 <= i < |users| && row == RowOf(users[i])
    {
      var i :| 0 <= i < |rows| && rows[i] == row;
      assert row == RowOf(users[i]);
    }
  }
}
