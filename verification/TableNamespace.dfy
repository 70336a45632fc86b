/**
 * Table names of modules: the manifest's namespace rule (`packages/module-sdk/src/manifest.ts`) and the authoring
 * helper (`packages/module-sdk/src/tables.ts`).
 */
module TableNamespace {
  import opened Regex

  const MAX_NAME_LEN := 64
  const MAX_TABLE_LEN := 128

  const LOWER: Range := Range('a', 'z')
  const DIGIT: Range := Range('0', '9')

  /** `^[a-z][a-z0-9-]*$` and `^[a-z0-9_]+$`. */
  const NAME_FIRST: seq<Range> := [LOWER]
  const NAME_REST: seq<Range> := [LOWER, DIGIT, Range('-', '-')]
  const SUFFIX: seq<Range> := [LOWER, DIGIT, Range('_', '_')]
  const MODULE_NAME_RE: Re := Cat(Class(NAME_FIRST), Star(Class(NAME_REST)))
  const TABLE_SUFFIX_RE: Re := Cat(Class(SUFFIX), Star(Class(SUFFIX)))

  predicate IsModuleName(s: string) { IsSlug(NAME_FIRST, NAME_REST, s) }

  predicate IsTableSuffix(s: string) { IsSlug(SUFFIX, SUFFIX, s) }

  /** The two tests are the two regular expressions. */
  lemma GrammarsAreTheRegexes(s: string)
    ensures IsModuleName(s) <==> Matches(MODULE_NAME_RE, s)
    ensures IsTableSuffix(s) <==> Matches(TABLE_SUFFIX_RE, s)
  {
    SlugMatches(NAME_FIRST, NAME_REST, s);
    SlugMatches(SUFFIX, SUFFIX, s);
  }

  predicate IsLower(c: char) { 'a' <= c <= 'z' }

  predicate IsDigit(c: char) { '0' <= c <= '9' }

  lemma ClassesSpeltOut(c: char)
    ensures InClass(NAME_FIRST, c) <==> IsLower(c)
    ensures InClass(NAME_REST, c) <==> IsLower(c) || IsDigit(c) || c == '-'
    ensures InClass(SUFFIX, c) <==> IsLower(c) || IsDigit(c) || c == '_'
  {
    assert NAME_FIRST[0] == LOWER && NAME_REST[0] == LOWER && NAME_REST[1] == DIGIT && NAME_REST[2] == Range('-', '-');
    assert SUFFIX[0] == LOWER && SUFFIX[1] == DIGIT && SUFFIX[2] == Range('_', '_');
  }

  /** The two tests, character by character. */
  lemma NamesSpeltOut(s: string)
    ensures IsModuleName(s)
            <==> s != "" && IsLower(s[0]) && forall i :: 1 <= i < |s| ==> IsLower(s[i]) || IsDigit(s[i]) || s[i] == '-'
    ensures IsTableSuffix(s)
            <==> s != "" && forall i :: 0 <= i < |s| ==> IsLower(s[i]) || IsDigit(s[i]) || s[i] == '_'
  {
    forall c ensures InClass(NAME_FIRST, c) <==> IsLower(c)
             ensures InClass(NAME_REST, c) <==> IsLower(c) || IsDigit(c) || c == '-'
             ensures InClass(SUFFIX, c) <==> IsLower(c) || IsDigit(c) || c == '_'
    {
      ClassesSpeltOut(c);
    }
    assert s != "" ==> forall i :: 1 <= i < |s| ==> s[i] == s[1..][i - 1];
  }

  function Prefix(name: string): string { "mod_" + name + "_" }

  predicate StartsWith(s: string, prefix: string) { prefix <= s }

  /** A manifest named `name` passes with `table` among its tables. */
  predicate Accepted(name: string, table: string) {
    && IsModuleName(name) && |name| <= MAX_NAME_LEN
    && 1 <= |table| <= MAX_TABLE_LEN
    && StartsWith(table, Prefix(name)) && IsTableSuffix(table[|Prefix(name)|..])
  }

  /** A manifest accepts exactly the tables `mod_<name>_<suffix>` with both parts well formed, within both lengths. */
  lemma AcceptedSpeltOut(name: string, table: string)
    ensures Accepted(name, table)
            <==> IsModuleName(name) && |name| <= 64 && |table| <= 128
                 && exists suffix :: IsTableSuffix(suffix) && table == "mod_" + name + "_" + suffix
  {
    if Accepted(name, table) {
      assert table == "mod_" + name + "_" + table[|Prefix(name)|..];
    }
    forall suffix | IsTableSuffix(suffix) && table == "mod_" + name + "_" + suffix
      ensures StartsWith(table, Prefix(name)) && table[|Prefix(name)|..] == suffix
    {
      assert table == Prefix(name) + suffix;
    }
  }

  datatype Result = Table(name: string) | Thrown

  function CreateNamespacedTable(moduleName: string, suffix: string): Result {
    if !IsModuleName(moduleName) then Thrown
    else if !IsTableSuffix(suffix) then Thrown
    else if StartsWith(suffix, "mod_") then Thrown
    else Table("mod_" + moduleName + "_" + suffix)
  }

  lemma NameHasNoUnderscore(name: string, i: nat)
    requires IsModuleName(name) && i < |name|
    ensures name[i] != '_'
  {
    if i > 0 { assert name[1..][i - 1] == name[i]; }
  }

  /** No table name belongs to two modules. */
  lemma NamespacesAreDisjoint(a: string, b: string, table: string)
    requires Accepted(a, table) && Accepted(b, table)
    ensures a == b
  {
    if |a| < |b| { OwnerEndsAtUnderscore(a, b, table); }
    if |b| < |a| { OwnerEndsAtUnderscore(b, a, table); }
    forall i | 0 <= i < |a| && |a| == |b| ensures a[i] == b[i] {
      assert table[4 + i] == Prefix(a)[4 + i] == a[i];
      assert table[4 + i] == Prefix(b)[4 + i] == b[i];
    }
  }

  lemma OwnerEndsAtUnderscore(a: string, b: string, table: string)
    requires Accepted(a, table) && Accepted(b, table) && |a| <= |b|
    ensures |a| == |b|
  {
    if |a| < |b| {
      assert table[4 + |a|] == Prefix(a)[4 + |a|] == '_';
      assert table[4 + |a|] == Prefix(b)[4 + |a|] == b[|a|];
      NameHasNoUnderscore(b, |a|);
    }
  }

  /**
   * The helper's names pass the manifest check of their own module exactly when both lengths do: the helper, which
   * promises names that pass, measures neither.
   */
  lemma HelperMeetsManifest(name: string, suffix: string)
    requires CreateNamespacedTable(name, suffix).Table?
    ensures var table := CreateNamespacedTable(name, suffix).name;
            Accepted(name, table) <==> |name| <= MAX_NAME_LEN && |table| <= MAX_TABLE_LEN
  {
    var table := CreateNamespacedTable(name, suffix).name;
    assert table == Prefix(name) + suffix;
    assert table[|Prefix(name)|..] == suffix;
  }

  /** Conversely the helper makes every accepted table, but for suffixes that themselves start with `mod_`. */
  lemma HelperMakesAccepted(name: string, table: string)
    requires Accepted(name, table)
    ensures (exists suffix :: CreateNamespacedTable(name, suffix) == Table(table))
            <==> !StartsWith(table[|Prefix(name)|..], "mod_")
  {
    var rest := table[|Prefix(name)|..];
    assert table == Prefix(name) + rest;
    if !StartsWith(rest, "mod_") {
      assert CreateNamespacedTable(name, rest) == Table(table);
    }
    forall suffix | CreateNamespacedTable(name, suffix) == Table(table) ensures suffix == rest {
      assert table == Prefix(name) + suffix;
      assert table[|Prefix(name)|..] == suffix;
    }
  }

  /** A run of one lower-case letter is a module name and a table suffix. */
  lemma LettersPass(s: string)
    requires s != "" && forall i :: 0 <= i < |s| ==> s[i] == 'a'
    ensures IsModuleName(s) && IsTableSuffix(s) && !StartsWith(s, "mod_")
  {
    assert NAME_FIRST[0] == NAME_REST[0] == SUFFIX[0] == LOWER;
    assert InClass(NAME_FIRST, 'a') && InClass(NAME_REST, 'a') && InClass(SUFFIX, 'a');
    assert s[0] != "mod_"[0];
  }

  /** The promise does fail, for the length of the module name as for that of the whole table name. */
  lemma HelperExceedsManifest()
    ensures exists name, suffix :: CreateNamespacedTable(name, suffix).Table? && |name| > MAX_NAME_LEN
    ensures exists name, suffix ::
              CreateNamespacedTable(name, suffix).Table? && |name| <= MAX_NAME_LEN
              && !Accepted(name, CreateNamespacedTable(name, suffix).name)
  {
    var long := seq(MAX_TABLE_LEN, i => 'a');
    LettersPass(long);
    LettersPass("a");
    assert CreateNamespacedTable(long, "a").Table? && |long| > MAX_NAME_LEN;
    assert CreateNamespacedTable("a", long).Table?;
    HelperMeetsManifest("a", long);
    assert |CreateNamespacedTable("a", long).name| > MAX_TABLE_LEN;
  }
}
