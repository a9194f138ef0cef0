/**
 * Startup migration: the script is split on ';', each piece is trimmed of
 * white space, empty pieces are skipped, and the rest are executed in order
 * until the first failure. A ';' inside an SQL literal still splits.
 */
module Migration {
  import opened Wrappers
  import opened Kube

  /** strings.Split on a one-character separator: n separators give n + 1 pieces. */
  function Split(s: string, sep: char): (r: seq<string>)
    ensures |r| >= 1
    ensures forall piece :: piece in r ==> sep !in piece
  {
    if s == [] then [""]
    else
      var rest := Split(s[1..], sep);
      if s[0] == sep then [""] + rest
      else [[s[0]] + rest[0]] + rest[1..]
  }

  /** Every character of a piece comes from the script. */
  lemma {:induction false} SplitChars(s: string, sep: char, piece: string, c: char)
    requires piece in Split(s, sep) && c in piece
    ensures c in s
  {
    if s != [] {
      var rest := Split(s[1..], sep);
      if piece in rest {
        SplitChars(s[1..], sep, piece, c);
      } else if s[0] != sep && c != s[0] {
        SplitChars(s[1..], sep, rest[0], c);
      }
    }
  }

  /** strings.Join: the pieces with the separator between them. */
  function Join(pieces: seq<string>, sep: char): string
    requires |pieces| >= 1
  {
    if |pieces| == 1 then pieces[0] else pieces[0] + [sep] + Join(pieces[1..], sep)
  }

  /** Joining the pieces back gives the script: no character is lost or added. */
  lemma {:induction false} JoinSplit(s: string, sep: char)
    ensures Join(Split(s, sep), sep) == s
  {
    if s != [] {
      var rest := Split(s[1..], sep);
      JoinSplit(s[1..], sep);
      if s[0] == sep {
        assert Split(s, sep)[1..] == rest;
      } else {
        var r := Split(s, sep);
        assert r[0] == [s[0]] + rest[0];
        if |rest| > 1 {
          assert r[1..] == rest[1..];
        }
      }
    }
  }

  lemma {:induction false} SplitPiece(x: string, sep: char)
    requires sep !in x
    ensures Split(x, sep) == [x]
  {
    if x != [] {
      SplitPiece(x[1..], sep);
      assert [x[0]] + x[1..] == x;
    }
  }

  lemma {:induction false} SplitAfterPiece(x: string, y: string, sep: char)
    requires sep !in x
    ensures Split(x + [sep] + y, sep) == [x] + Split(y, sep)
  {
    if x == [] {
      assert x + [sep] + y == [sep] + y;
      assert ([sep] + y)[1..] == y;
    } else {
      assert (x + [sep] + y)[1..] == x[1..] + [sep] + y;
      SplitAfterPiece(x[1..], y, sep);
      assert [x[0]] + x[1..] == x;
    }
  }

  /** Splitting a join of separator-free pieces gives the pieces back. */
  lemma {:induction false} SplitJoin(pieces: seq<string>, sep: char)
    requires |pieces| >= 1
    requires forall piece :: piece in pieces ==> sep !in piece
    ensures Split(Join(pieces, sep), sep) == pieces
  {
    if |pieces| == 1 {
      SplitPiece(pieces[0], sep);
    } else {
      SplitJoin(pieces[1..], sep);
      SplitAfterPiece(pieces[0], Join(pieces[1..], sep), sep);
    }
  }

  /** unicode.IsSpace: ASCII white space, NEL, NBSP and the Unicode White_Space characters. */
  predicate IsSpace(c: char) {
    || c == ' ' || '\t' <= c <= '\r'
    || c == '\U{85}' || c == '\U{A0}' || c == '\U{1680}'
    || '\U{2000}' <= c <= '\U{200A}'
    || c == '\U{2028}' || c == '\U{2029}' || c == '\U{202F}' || c == '\U{205F}' || c == '\U{3000}'
  }

  ghost predicate AllSpace(s: string) {
    forall i :: 0 <= i < |s| ==> IsSpace(s[i])
  }

  function LeadingSpaces(s: string): (n: nat)
    ensures n <= |s| && AllSpace(s[..n])
    ensures n < |s| ==> !IsSpace(s[n])
  {
    if s == [] || !IsSpace(s[0]) then 0 else 1 + LeadingSpaces(s[1..])
  }

  function TrailingSpaces(s: string): (n: nat)
    ensures n <= |s| && AllSpace(s[|s| - n..])
    ensures n < |s| ==> !IsSpace(s[|s| - n - 1])
  {
    if s == [] || !IsSpace(s[|s| - 1]) then 0 else 1 + TrailingSpaces(s[..|s| - 1])
  }

  /** strings.TrimSpace: drops the leading and the trailing white space of `s`. */
  function TrimSpace(s: string): string {
    var i := LeadingSpaces(s);
    var rest := s[i..];
    rest[..|rest| - TrailingSpaces(rest)]
  }

  /** Where TrimSpace cuts `s`: after its leading and before its trailing white space. */
  function TrimBounds(s: string): (b: (nat, nat))
    ensures b.0 <= b.1 <= |s| && TrimSpace(s) == s[b.0..b.1]
    ensures AllSpace(s[..b.0]) && AllSpace(s[b.1..])
    ensures b.0 < |s| ==> !IsSpace(s[b.0])
    ensures b.0 < b.1 ==> !IsSpace(s[b.1 - 1])
  {
    var i := LeadingSpaces(s);
    var rest := s[i..];
    var n := TrailingSpaces(rest);
    assert rest[|rest| - n..] == s[|s| - n..];
    (i, |s| - n)
  }

  /**
   * The trimmed string is the part of `s` between its leading and trailing
   * white space, starts and ends with a non-space, and is empty exactly when
   * `s` is all white space.
   */
  lemma TrimSpaceSpec(s: string)
    ensures exists i, j :: 0 <= i <= j <= |s| && TrimSpace(s) == s[i..j] && AllSpace(s[..i]) && AllSpace(s[j..])
    ensures TrimSpace(s) != [] ==> !IsSpace(TrimSpace(s)[0]) && !IsSpace(TrimSpace(s)[|TrimSpace(s)| - 1])
    ensures TrimSpace(s) == [] <==> AllSpace(s)
  {
    var (i, j) := TrimBounds(s);
    if i == j {
      assert i == |s|;
      forall k | 0 <= k < |s|
        ensures IsSpace(s[k])
      {
        assert s[..i][k] == s[k];
      }
    } else {
      assert s[i..j][j - i - 1] == s[j - 1];
    }
  }

  /** The non-empty trimmed pieces, in order: the statements the loop sends. */
  function Statements(pieces: seq<string>): (r: seq<string>)
    ensures forall st :: st in r ==> st != [] && exists piece :: piece in pieces && st == TrimSpace(piece)
  {
    if pieces == [] then []
    else
      var init := pieces[..|pieces| - 1];
      var st := TrimSpace(pieces[|pieces| - 1]);
      assert forall piece :: piece in init ==> piece in pieces;
      if st == [] then Statements(init) else Statements(init) + [st]
  }

  /** Dropping trailing pieces leaves a prefix of the statements. */
  lemma {:induction false} StatementsPrefix(pieces: seq<string>, i: nat)
    requires i <= |pieces|
    ensures Statements(pieces[..i]) <= Statements(pieces)
    decreases |pieces| - i
  {
    if i < |pieces| {
      var init := pieces[..|pieces| - 1];
      assert pieces[..i] == init[..i];
      StatementsPrefix(init, i);
    } else {
      assert pieces[..i] == pieces;
    }
  }

  /** One more piece adds its trimmed form when that is not empty. */
  lemma StatementsSnoc(pieces: seq<string>, i: nat)
    requires i < |pieces|
    ensures Statements(pieces[..i + 1]) ==
      if TrimSpace(pieces[i]) == [] then Statements(pieces[..i])
      else Statements(pieces[..i]) + [TrimSpace(pieces[i])]
  {
    assert pieces[..i + 1][..i] == pieces[..i];
  }

  /** Every statement sent is non-empty, trimmed, and holds no ';'. */
  lemma {:induction false} StatementsOfScript(script: string, st: string)
    requires st in Statements(Split(script, ';'))
    ensures st != [] && !IsSpace(st[0]) && !IsSpace(st[|st| - 1])
    ensures ';' !in st
  {
    var piece :| piece in Split(script, ';') && st == TrimSpace(piece);
    TrimSpaceSpec(piece);
    var i, j :| 0 <= i <= j <= |piece| && st == piece[i..j];
  }

  /** A script of only white space and ';' sends nothing. */
  lemma {:induction false} BlankScriptSendsNothing(script: string)
    requires forall c :: c in script ==> IsSpace(c) || c == ';'
    ensures Statements(Split(script, ';')) == []
  {
    var stmts := Statements(Split(script, ';'));
    if stmts != [] {
      assert stmts[0] in stmts;
      var piece :| piece in Split(script, ';') && stmts[0] == TrimSpace(piece);
      TrimSpaceSpec(piece);
      forall k | 0 <= k < |piece|
        ensures IsSpace(piece[k])
      {
        SplitChars(script, ';', piece, piece[k]);
      }
    }
  }

  /**
   * Sending statements in order until the first failure: the error (if any)
   * and the statements sent, the failing one included.
   */
  function Migrate(stmts: seq<string>, execFault: string -> Option<string>): (r: (Option<Error>, seq<string>))
    ensures r.1 <= stmts
    ensures r.0.None? <==> r.1 == stmts && forall st :: st in stmts ==> execFault(st).None?
    ensures r.0.Some? ==>
      && |r.1| >= 1
      && execFault(r.1[|r.1| - 1]).Some?
      && r.0 == Some(DatabaseFault(execFault(r.1[|r.1| - 1]).value))
      && forall k :: 0 <= k < |r.1| - 1 ==> execFault(r.1[k]).None?
  {
    if stmts == [] then (None, [])
    else
      var init := stmts[..|stmts| - 1];
      var last := stmts[|stmts| - 1];
      var (e, sent) := Migrate(init, execFault);
      assert stmts == init + [last];
      if e.Some? then (e, sent)
      else
        match execFault(last)
        case Some(msg) => (Some(DatabaseFault(msg)), sent + [last])
        case None => (None, sent + [last])
  }

  /** After a clean run, one more statement is sent and decides the outcome. */
  lemma MigrateSnoc(stmts: seq<string>, st: string, execFault: string -> Option<string>)
    requires Migrate(stmts, execFault) == (None, stmts)
    ensures Migrate(stmts + [st], execFault) ==
      if execFault(st).Some? then (Some(DatabaseFault(execFault(st).value)), stmts + [st])
      else (None, stmts + [st])
  {
    assert (stmts + [st])[..|stmts|] == stmts;
  }

  /** Once a statement has failed, later statements are never sent. */
  lemma {:induction false} MigrateFailureIsFinal(a: seq<string>, b: seq<string>, execFault: string -> Option<string>)
    requires a <= b
    requires Migrate(a, execFault).0.Some?
    ensures Migrate(b, execFault) == Migrate(a, execFault)
    decreases |b|
  {
    if |b| > |a| {
      var init := b[..|b| - 1];
      assert a <= init;
      MigrateFailureIsFinal(a, init, execFault);
    } else {
      assert a == b;
    }
  }

  /** A failure among the first `i` pieces is the outcome of the whole script. */
  lemma MigrateStopsAt(pieces: seq<string>, i: nat, execFault: string -> Option<string>)
    requires i <= |pieces|
    requires Migrate(Statements(pieces[..i]), execFault).0.Some?
    ensures Migrate(Statements(pieces), execFault) == Migrate(Statements(pieces[..i]), execFault)
  {
    StatementsPrefix(pieces, i);
    MigrateFailureIsFinal(Statements(pieces[..i]), Statements(pieces), execFault);
  }

  /** One pass of the statement loop over piece `i`; after a clean run over the pieces before it, the piece decides how the run goes on. */
  lemma MigrateStep(pieces: seq<string>, i: nat, execFault: string -> Option<string>)
    requires i < |pieces|
    ensures TrimSpace(pieces[i]) == [] ==>
      Statements(pieces[..i + 1]) == Statements(pieces[..i])
    ensures TrimSpace(pieces[i]) != [] ==>
      Statements(pieces[..i + 1]) == Statements(pieces[..i]) + [TrimSpace(pieces[i])]
    ensures Migrate(Statements(pieces[..i]), execFault) == (None, Statements(pieces[..i])) &&
            (TrimSpace(pieces[i]) == [] || execFault(TrimSpace(pieces[i])).None?) ==>
      Migrate(Statements(pieces[..i + 1]), execFault) == (None, Statements(pieces[..i + 1]))
    ensures Migrate(Statements(pieces[..i]), execFault) == (None, Statements(pieces[..i])) &&
            TrimSpace(pieces[i]) != [] && execFault(TrimSpace(pieces[i])).Some? ==>
      Migrate(Statements(pieces), execFault)
        == (Some(DatabaseFault(execFault(TrimSpace(pieces[i])).value)), Statements(pieces[..i]) + [TrimSpace(pieces[i])])
  {
    StatementsSnoc(pieces, i);
    var st := TrimSpace(pieces[i]);
    if st != [] && Migrate(Statements(pieces[..i]), execFault) == (None, Statements(pieces[..i])) {
      MigrateSnoc(Statements(pieces[..i]), st, execFault);
      if execFault(st).Some? {
        MigrateStopsAt(pieces, i + 1, execFault);
      }
    }
  }

  /** The database as a log of the statements it received; `execFault` stands for its answers. */
  class Database {
    var executed: seq<string>
    const execFault: string -> Option<string>

    constructor (execFault: string -> Option<string>)
      ensures executed == [] && this.execFault == execFault
    {
      executed := [];
      this.execFault := execFault;
    }

    method Exec(stmt: string) returns (err: Option<string>)
      modifies this
      ensures executed == old(executed) + [stmt]
      ensures err == execFault(stmt)
    {
      executed := executed + [stmt];
      err := execFault(stmt);
    }
  }

  class BaseRepository {
    const database: Database

    constructor (database: Database)
      ensures this.database == database
    {
      this.database := database;
    }

    /**
     * `InitMigration`, given the outcome of reading the script file: a read
     * error returns before anything is sent; otherwise the statements are
     * sent in order up to the first failure, whose error is returned.
     */
    method InitMigration(sqlFile: Result<string, string>) returns (err: Option<Error>)
      modifies database
      ensures sqlFile.Failure? ==> err == Some(ReadFault(sqlFile.error)) && database.executed == old(database.executed)
      ensures sqlFile.Success? ==>
        var (e, sent) := Migrate(Statements(Split(sqlFile.value, ';')), database.execFault);
        err == e && database.executed == old(database.executed) + sent
    {
      if sqlFile.Failure? {
        return Some(ReadFault(sqlFile.error));
      }
      err := ExecPieces(Split(sqlFile.value, ';'));
    }

    /** The statement loop of `InitMigration` over the pieces of the script. */
    method ExecPieces(pieces: seq<string>) returns (err: Option<Error>)
      modifies database
      ensures err == Migrate(Statements(pieces), database.execFault).0
      ensures database.executed == old(database.executed) + Migrate(Statements(pieces), database.execFault).1
    {
      ghost var start := database.executed;
      ghost var fault := database.execFault;
      ghost var sent: seq<string> := [];
      for i := 0 to |pieces|
        invariant database.execFault == fault
        invariant sent == Statements(pieces[..i])
        invariant Migrate(sent, fault) == (None, sent)
        invariant database.executed == start + sent
      {
        MigrateStep(pieces, i, fault);
        var stmt := TrimSpace(pieces[i]);
        if stmt != [] {
          var e := database.Exec(stmt);
          sent := sent + [stmt];
          if e.Some? {
            return Some(DatabaseFault(e.value));
          }
        }
      }
      assert pieces[..|pieces|] == pieces;
      err := None;
    }
  }
}
