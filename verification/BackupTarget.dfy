/**
  The target of a database backup (apps/api/internal/handler/database_backup_configs.go): a list of
  names is stored as one comma-joined text, and read back as a list.
 */
module BackupTarget {
  import opened Text

  const ALL := "*"

  /** What a stored target means: every database, or the listed ones. */
  datatype Target = Target(all: bool, names: seq<string>)

  /** The trimmed names that are not blank, in order. */
  function Kept(names: seq<string>): seq<string> {
    if names == [] then []
    else KeptLast(Kept(names[..|names| - 1]), TrimSpace(names[|names| - 1]))
  }

  function KeptLast(kept: seq<string>, last: string): seq<string> {
    if last == "" then kept else kept + [last]
  }

  /** No name is blank and none needs trimming. */
  ghost predicate Neat(names: seq<string>) {
    names != [] ==> Neat(names[..|names| - 1]) && IsNeat(names[|names| - 1])
  }

  ghost predicate IsNeat(name: string) { name != "" && TrimSpace(name) == name }

  lemma {:induction false} KeptNeat(names: seq<string>)
    ensures Neat(Kept(names))
  {
    if names != [] {
      var kept, last := Kept(names[..|names| - 1]), TrimSpace(names[|names| - 1]);
      KeptNeat(names[..|names| - 1]);
      TrimSpaceEnds(names[|names| - 1]);
      assert (kept + [last])[..|kept|] == kept;
    }
  }

  /** A name is kept without the spaces around it, in its place; one of spaces alone is not. */
  lemma KeptTrims(names: seq<string>, a: string, m: string, b: string)
    requires (forall c <- a :: IsSpace(c)) && (forall c <- b :: IsSpace(c))
    requires m == "" || (!IsSpace(m[0]) && !IsSpace(m[|m| - 1]))
    ensures Kept([]) == [] && Kept(names + [a + m + b]) == Kept(names) + if m == "" then [] else [m]
  {
    TrimSpaceMiddle(a, m, b);
    assert (names + [a + m + b])[..|names|] == names;
  }

  function Printed(names: seq<string>): string {
    if Kept(names) == [] then ALL else Join(Kept(names), ',')
  }

  function Parsed(target: string): Target {
    Target(target == ALL, if target == ALL then [] else Kept(Split(target, ',')))
  }

  /** targetDatabase: one loop collects the names. */
  method TargetDatabase(databases: seq<string>) returns (target: string)
    ensures target == Printed(databases)
  {
    var names: seq<string> := [];
    for i := 0 to |databases|
      invariant names == Kept(databases[..i])
    {
      var d := TrimSpace(databases[i]);
      assert databases[..i + 1][..i] == databases[..i];
      if d != "" {
        names := names + [d];
      }
    }
    assert databases[..|databases|] == databases;
    if |names| == 0 {
      return ALL;
    }
    return Join(names, ',');
  }

  /** The parser inside toBackupConfigResponse. */
  method ParseTarget(target: string) returns (t: Target)
    ensures t == Parsed(target)
  {
    var all := target == "*";
    var dbs: seq<string> := [];
    if !all {
      var parts := Split(target, ',');
      for i := 0 to |parts|
        invariant dbs == Kept(parts[..i])
      {
        var p := TrimSpace(parts[i]);
        assert parts[..i + 1][..i] == parts[..i];
        if p != "" {
          dbs := dbs + [p];
        }
      }
      assert parts[..|parts|] == parts;
    }
    return Target(all, dbs);
  }

  /** Names that need no trimming are all kept. */
  lemma {:induction false} KeptKeeps(names: seq<string>)
    requires Neat(names)
    ensures Kept(names) == names
  {
    if names != [] {
      KeptKeeps(names[..|names| - 1]);
      assert KeptLast(names[..|names| - 1], names[|names| - 1]) == names;
    }
  }

  /** No part of a parsed text holds a comma: trimming only takes characters away. */
  lemma {:induction false} KeptClean(names: seq<string>)
    requires Clean(names, ',')
    ensures Clean(Kept(names), ',')
  {
    if names != [] {
      KeptClean(names[..|names| - 1]);
      TrimSpaceLacks(names[|names| - 1], ',');
    }
  }

  /**
    Reading back a printed list gives the trimmed non-blank names in order, and no names at all
    means all databases, exactly when no kept name holds a comma and the list is not the single
    name "*".
   */
  lemma PrintThenParseIff(names: seq<string>)
    ensures Parsed(Printed(names)) == Target(Kept(names) == [], Kept(names))
       <==> Clean(Kept(names), ',') && Kept(names) != [ALL]
  {
    var kept := Kept(names);
    if kept != [] {
      var target := Join(kept, ',');
      if Clean(kept, ',') {
        SplitJoin(kept, ',');
        KeptNeat(names);
        KeptKeeps(kept);
        StarAlone(kept);
      } else {
        JoinSplit(target, ',');
        KeptClean(Split(target, ','));
      }
    }
  }

  /** Only the single name "*" prints as the mark for all databases. */
  lemma StarAlone(kept: seq<string>)
    requires kept != [] && Clean(kept, ',')
    ensures Join(kept, ',') == ALL <==> kept == [ALL]
  {
    SplitJoin(kept, ',');
    if Join(kept, ',') == ALL {
      SplitClean(ALL, ',');
    }
  }

  /** The star and nothing else stands for all databases; it is printed for no names, and for a single name "*". */
  lemma StarMeansAll(target: string, names: seq<string>)
    ensures Parsed(target).all <==> target == "*"
    ensures Clean(Kept(names), ',') ==> (Printed(names) == "*" <==> Kept(names) == [] || Kept(names) == ["*"])
  {
    if Kept(names) != [] && Clean(Kept(names), ',') {
      StarAlone(Kept(names));
    }
  }

  /**
    A client that sends a stored target's names back leaves its meaning alone exactly when the
    target is the mark for all or lists some names other than a lone "*"; a target that lists none
    turns into all databases.
   */
  lemma ParseThenPrintIff(target: string)
    ensures Parsed(Printed(Parsed(target).names)) == Parsed(target)
       <==> target == ALL || (Parsed(target).names != [] && Parsed(target).names != [ALL])
  {
    var names := Parsed(target).names;
    if target != ALL {
      KeptNeat(Split(target, ','));
      KeptKeeps(names);
      JoinSplit(target, ',');
      KeptClean(Split(target, ','));
      PrintThenParseIff(names);
    }
  }
}
