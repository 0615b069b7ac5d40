/** Running the migration files: every statement of a file is attempted on its own, whatever the ones before it did. */
module MigrationRunner {
  import opened Text
  import opened SqlScript

  /** What one `execute` and `commit` did: worked, raised the connector's `Error`, or raised anything else. */
  datatype Outcome = Executed | ConnectorError | OtherError

  /** What opening and reading a migration file gave. */
  datatype Script = Readable(text: string) | Unreadable

  /** The database connection; `outcome(k)` is what the k-th statement sent over it does. */
  class Connection {
    const outcome: nat -> Outcome
    var attempted: seq<string>
    var committed: seq<string>

    constructor (outcome: nat -> Outcome)
      ensures this.outcome == outcome && attempted == [] && committed == []
    {
      this.outcome := outcome;
      attempted, committed := [], [];
    }

    method Execute(statement: string) returns (o: Outcome)
      modifies this
      ensures o == outcome(|old(attempted)|)
      ensures attempted == old(attempted) + [statement]
      ensures committed == old(committed) + if o.Executed? then [statement] else []
    {
      o := outcome(|attempted|);
      attempted := attempted + [statement];
      if o.Executed? {
        committed := committed + [statement];
      }
    }
  }

  /** The statements of one file that reach the database when the first of them is the k-th of the connection. */
  function Attempts(statements: seq<string>, outcome: nat -> Outcome, k: nat): seq<string> {
    if statements == [] then []
    else [statements[0]]
         + if outcome(k).OtherError? then [] else Attempts(statements[1..], outcome, k + 1)
  }

  function Commits(attempts: seq<string>, outcome: nat -> Outcome, k: nat): seq<string> {
    if attempts == [] then []
    else (if outcome(k).Executed? then [attempts[0]] else []) + Commits(attempts[1..], outcome, k + 1)
  }

  function ScriptStatements(script: Script): seq<string> {
    if script.Readable? then Parse(script.text) else []
  }

  /** The execute loop: `ok` is false when something other than the connector's error broke it off. */
  method RunStatements(connection: Connection, statements: seq<string>) returns (ok: bool)
    modifies connection
    ensures var k := |old(connection.attempted)|;
            var attempts := Attempts(statements, connection.outcome, k);
            && connection.attempted == old(connection.attempted) + attempts
            && connection.committed == old(connection.committed) + Commits(attempts, connection.outcome, k)
            && (ok <==> forall i :: k <= i < k + |attempts| ==> !connection.outcome(i).OtherError?)
  {
    ghost var k := |connection.attempted|;
    for i := 0 to |statements|
      invariant connection.attempted == old(connection.attempted) + statements[..i]
      invariant connection.committed == old(connection.committed) + Commits(statements[..i], connection.outcome, k)
      invariant forall j :: k <= j < k + i ==> !connection.outcome(j).OtherError?
    {
      CommitsSnoc(statements, connection.outcome, k, i);
      var o := connection.Execute(statements[i]);
      assert statements[..i + 1] == statements[..i] + [statements[i]];
      if o.OtherError? {
        AttemptsAre(statements, connection.outcome, k, i + 1);
        return false;
      }
    }
    AttemptsAre(statements, connection.outcome, k, |statements|);
    return true;
  }

  /** `run_migration_file`: a file that cannot be read sends nothing. */
  method RunMigrationFile(connection: Connection, script: Script) returns (ok: bool)
    modifies connection
    ensures var k := |old(connection.attempted)|;
            var attempts := Attempts(ScriptStatements(script), connection.outcome, k);
            && connection.attempted == old(connection.attempted) + attempts
            && connection.committed == old(connection.committed) + Commits(attempts, connection.outcome, k)
            && (ok <==> script.Readable? && forall i :: k <= i < k + |attempts| ==> !connection.outcome(i).OtherError?)
  {
    if script.Unreadable? {
      return false;
    }
    var statements := ParseScript(script.text);
    ok := RunStatements(connection, statements);
  }

  lemma {:induction false} AttemptsAre(statements: seq<string>, outcome: nat -> Outcome, k: nat, n: nat)
    requires n <= |statements| && (forall j :: k <= j < k + n - 1 ==> !outcome(j).OtherError?)
    requires n == |statements| || (n > 0 && outcome(k + n - 1).OtherError?)
    ensures Attempts(statements, outcome, k) == statements[..n]
  {
    if n > 1 {
      AttemptsAre(statements[1..], outcome, k + 1, n - 1);
      assert statements[..n] == [statements[0]] + statements[1..][..n - 1];
    } else if n == 1 && |statements| == 1 {
      assert Attempts(statements[1..], outcome, k + 1) == [];
    }
  }

  lemma {:induction false} CommitsSnoc(statements: seq<string>, outcome: nat -> Outcome, k: nat, i: nat)
    requires i < |statements|
    ensures Commits(statements[..i + 1], outcome, k)
         == Commits(statements[..i], outcome, k) + if outcome(k + i).Executed? then [statements[i]] else []
  {
    if i == 0 {
      assert Commits(statements[..1][1..], outcome, k + 1) == [];
    } else {
      CommitsSnoc(statements[1..], outcome, k + 1, i - 1);
      assert statements[..i + 1][1..] == statements[1..][..i];
      assert statements[..i][1..] == statements[1..][..i - 1];
    }
  }

  /** What a run commits is what its parts commit, each at its own place of the connection. */
  lemma {:induction false} CommitsConcat(a: seq<string>, b: seq<string>, outcome: nat -> Outcome, k: nat)
    ensures Commits(a + b, outcome, k) == Commits(a, outcome, k) + Commits(b, outcome, k + |a|)
    decreases |b|
  {
    if b == [] {
      assert a + b == a;
    } else {
      hide Commits;
      var n, all := |b| - 1, a + b;
      CommitsConcat(a, b[..n], outcome, k);
      CommitsSnoc(all, outcome, k, |a| + n);
      CommitsSnoc(b, outcome, k + |a|, n);
      assert all[..|a| + n] == a + b[..n] && all[..|a| + n + 1] == all && b[..n + 1] == b;
    }
  }

  lemma NothingDone(files: seq<seq<string>>, outcome: nat -> Outcome, k: nat)
    ensures RunAttempts(files[..0], outcome, k) == [] && Commits([], outcome, k) == []
  {
  }

  // ---------- The whole directory ----------

  predicate IsMigration(name: string) {
    "0" <= name && |name| >= 4 && name[|name| - 4..] == ".sql"
  }

  function Scripts(files: map<string, Script>, order: seq<string>): seq<Script>
    requires forall n :: n in order ==> n in files
  {
    seq(|order|, i requires 0 <= i < |order| => files[order[i]])
  }

  function StatementLists(scripts: seq<Script>): seq<seq<string>> {
    seq(|scripts|, i requires 0 <= i < |scripts| => ScriptStatements(scripts[i]))
  }

  /** Each file of the order gives its own statements: the parse of its text, or none if it cannot be read. */
  lemma StatementsOfFiles(files: map<string, Script>, order: seq<string>, i: nat)
    requires i < |order| && forall n <- order :: n in files
    ensures var lists := StatementLists(Scripts(files, order));
            && |lists| == |order|
            && lists[i] == if files[order[i]].Readable? then Parse(files[order[i]].text) else []
  {
    hide Parse;
  }

  /**
    What a run over files with the given statements attempts when its first statement is the k-th of the connection.
   */
  function RunAttempts(files: seq<seq<string>>, outcome: nat -> Outcome, k: nat): seq<string> {
    if files == [] then []
    else
      var before := RunAttempts(files[..|files| - 1], outcome, k);
      before + Attempts(files[|files| - 1], outcome, k + |before|)
  }

  /** `main`: the files whose name starts with `0` and ends in `.sql`, in sorted order; a file's result is ignored. */
  method RunMigrations(connection: Connection, files: map<string, Script>) returns (order: seq<string>)
    modifies connection
    ensures SortedListing(order, set n | n in files && "0" <= n && |n| >= 4 && n[|n| - 4..] == ".sql")
    ensures var k := |old(connection.attempted)|;
            var attempts := RunAttempts(StatementLists(Scripts(files, order)), connection.outcome, k);
            && connection.attempted == old(connection.attempted) + attempts
            && connection.committed == old(connection.committed) + Commits(attempts, connection.outcome, k)
  {
    hide RunAttempts, Attempts, Commits, Parse, ScriptStatements;
    order := Sorted(set n | n in files && IsMigration(n));
    RunInOrder(connection, Scripts(files, order));
  }

  /** The next file, after those that attempted `done`. */
  method RunNext(connection: Connection, script: Script, ghost attempted: seq<string>, ghost committed: seq<string>,
                 ghost done: seq<string>, ghost k: nat)
    requires |attempted| == k && connection.attempted == attempted + done
    requires connection.committed == committed + Commits(done, connection.outcome, k)
    modifies connection
    ensures var more := Attempts(ScriptStatements(script), connection.outcome, k + |done|);
            && connection.attempted == attempted + (done + more)
            && connection.committed
               == committed + (Commits(done, connection.outcome, k) + Commits(more, connection.outcome, k + |done|))
  {
    hide ScriptStatements, Attempts, Commits;
    var _ := RunMigrationFile(connection, script);
  }

  method RunInOrder(connection: Connection, scripts: seq<Script>)
    modifies connection
    ensures var k := |old(connection.attempted)|;
            var attempts := RunAttempts(StatementLists(scripts), connection.outcome, k);
            && connection.attempted == old(connection.attempted) + attempts
            && connection.committed == old(connection.committed) + Commits(attempts, connection.outcome, k)
  {
    ghost var k, outcome, all := |connection.attempted|, connection.outcome, StatementLists(scripts);
    ghost var attempted, committed, done := connection.attempted, connection.committed,
        RunAttempts(all[..0], outcome, k);
    NothingDone(all, outcome, k);
    assert |all| == |scripts|;
    hide *;
    for i := 0 to |scripts|
      invariant done == RunAttempts(all[..i], outcome, k)
      invariant connection.attempted == attempted + done
      invariant connection.committed == committed + Commits(done, outcome, k)
    {
      ListAt(scripts, i);
      RunNext(connection, scripts[i], attempted, committed, done, k);
      done := NextDone(all, outcome, k, i, done);
    }
    assert all[..|scripts|] == all;
  }

  lemma NextDone(files: seq<seq<string>>, outcome: nat -> Outcome, k: nat, i: nat, done: seq<string>)
    returns (more: seq<string>)
    requires i < |files| && done == RunAttempts(files[..i], outcome, k)
    ensures more == RunAttempts(files[..i + 1], outcome, k) == done + Attempts(files[i], outcome, k + |done|)
    ensures Commits(more, outcome, k)
         == Commits(done, outcome, k) + Commits(Attempts(files[i], outcome, k + |done|), outcome, k + |done|)
  {
    RunAttemptsSnoc(files, outcome, k, i);
    hide RunAttempts, Attempts, Commits;
    more := done + Attempts(files[i], outcome, k + |done|);
    CommitsConcat(done, Attempts(files[i], outcome, k + |done|), outcome, k);
  }

  lemma ListAt(scripts: seq<Script>, i: nat)
    requires i < |scripts|
    ensures |StatementLists(scripts)| == |scripts| && StatementLists(scripts)[i] == ScriptStatements(scripts[i])
  {
  }

  lemma RunAttemptsSnoc(files: seq<seq<string>>, outcome: nat -> Outcome, k: nat, i: nat)
    requires i < |files|
    ensures var before := RunAttempts(files[..i], outcome, k);
            RunAttempts(files[..i + 1], outcome, k) == before + Attempts(files[i], outcome, k + |before|)
  {
    assert files[..i + 1][..i] == files[..i];
  }

  // ---------- What a run attempts ----------

  /** A file's statements are attempted in order up to and including the first that raises something unforeseen. */
  lemma {:induction false} AttemptsArePrefix(statements: seq<string>, outcome: nat -> Outcome, k: nat)
    ensures var r := Attempts(statements, outcome, k);
            && r <= statements
            && (forall i :: k <= i < k + |r| - 1 ==> !outcome(i).OtherError?)
            && (|r| < |statements| ==> r != [] && outcome(k + |r| - 1).OtherError?)
  {
    if statements != [] && !outcome(k).OtherError? {
      AttemptsArePrefix(statements[1..], outcome, k + 1);
      var rest := Attempts(statements[1..], outcome, k + 1);
      assert Attempts(statements, outcome, k) == [statements[0]] + rest;
      assert statements == [statements[0]] + statements[1..];
    }
  }

  function Flatten(files: seq<seq<string>>): seq<string> {
    if files == [] then [] else Flatten(files[..|files| - 1]) + files[|files| - 1]
  }

  /** Connector errors never make a run skip a statement: every statement of every file is attempted once, in order. */
  lemma {:induction false} EveryStatementAttempted(files: seq<seq<string>>, outcome: nat -> Outcome, k: nat)
    requires forall i :: k <= i ==> !outcome(i).OtherError?
    ensures RunAttempts(files, outcome, k) == Flatten(files)
  {
    hide Attempts;
    if files != [] {
      var last := files[|files| - 1];
      EveryStatementAttempted(files[..|files| - 1], outcome, k);
      AttemptsAre(last, outcome, k + |Flatten(files[..|files| - 1])|, |last|);
      assert last[..|last|] == last;
    }
  }

  function AllText(scripts: seq<Script>): seq<string>
    requires forall s :: s in scripts ==> s.Readable?
  {
    seq(|scripts|, i requires 0 <= i < |scripts| => scripts[i].text)
  }

  /** Running the files one after another attempts what the one script made of them parses to. */
  lemma RunIsOneScript(scripts: seq<Script>, outcome: nat -> Outcome, k: nat)
    requires forall s :: s in scripts ==> s.Readable?
    requires forall i :: k <= i ==> !outcome(i).OtherError?
    ensures RunAttempts(StatementLists(scripts), outcome, k) == Parse(Join(AllText(scripts), "\n;\n"))
  {
    EveryStatementAttempted(StatementLists(scripts), outcome, k);
    JoinedScript(scripts);
  }

  lemma {:induction false} JoinedScript(scripts: seq<Script>)
    requires forall s :: s in scripts ==> s.Readable?
    ensures Parse(Join(AllText(scripts), "\n;\n")) == Flatten(StatementLists(scripts))
  {
    hide Parse;
    if scripts == [] {
      ParsePrint([]);
      assert AllText(scripts) == [] && StatementLists(scripts) == [];
    } else {
      var n := |scripts| - 1;
      var before, last := scripts[..n], scripts[n];
      assert StatementLists(scripts)[..n] == StatementLists(before);
      JoinedScript(before);
      JoinedLast(AllText(before), last.text);
      assert AllText(scripts) == AllText(before) + [last.text];
      assert Flatten(StatementLists(scripts)) == Flatten(StatementLists(before)) + Parse(last.text);
    }
  }

  lemma JoinedLast(texts: seq<string>, last: string)
    ensures Parse(Join(texts + [last], "\n;\n")) == Parse(Join(texts, "\n;\n")) + Parse(last)
  {
    hide Parse;
    if texts == [] {
      ParsePrint([]);
      assert texts + [last] == [last];
    } else {
      JoinConcat(texts, [last], "\n;\n");
      ParseConcat(Join(texts, "\n;\n"), last);
    }
  }
}
