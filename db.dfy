/**
  * The database URL the backend hands to SQLAlchemy: a Postgres URL is made to
  * name the psycopg (version 3) driver, every other URL is passed through.
  */
module Db {
  import opened Wrappers

  const PostgresScheme := "postgres://"
  const PostgresqlScheme := "postgresql://"
  const PsycopgScheme := "postgresql+psycopg://"

  /** `s.startswith(p)`. */
  predicate StartsWith(s: string, p: string) {
    |p| <= |s| && s[..|p|] == p
  }

  /** `pat` occurs in `s` starting at index `j`. */
  predicate OccursAt(s: string, pat: string, j: int) {
    0 <= j && j + |pat| <= |s| && s[j..j + |pat|] == pat
  }

  /** `s.find(pat, k)`: the first index from `k` on where `pat` occurs, if any. */
  function FindFrom(s: string, pat: string, k: nat): (r: Option<nat>)
    requires k <= |s|
    ensures r.Some? ==> k <= r.value && OccursAt(s, pat, r.value)
    ensures r.Some? ==> forall j | k <= j < r.value :: !OccursAt(s, pat, j)
    ensures r.None? ==> forall j | k <= j :: !OccursAt(s, pat, j)
    decreases |s| - k
  {
    if k + |pat| > |s| then None
    else if s[k..k + |pat|] == pat then Some(k)
    else if k == |s| then None
    else FindFrom(s, pat, k + 1)
  }

  /** `s.replace(pat, rep, 1)`: the first occurrence of `pat` replaced by `rep`. */
  function ReplaceFirst(s: string, pat: string, rep: string): string {
    match FindFrom(s, pat, 0)
    case None => s
    case Some(i) => s[..i] + rep + s[i + |pat|..]
  }

  /** A prefix occurrence is the first one, so replacing it swaps the prefix. */
  lemma ReplaceAtStart(s: string, pat: string, rep: string)
    requires StartsWith(s, pat)
    ensures ReplaceFirst(s, pat, rep) == rep + s[|pat|..]
  {
    assert OccursAt(s, pat, 0);
    var i := FindFrom(s, pat, 0);
    assert i == Some(0);
  }

  /** `_format_database_url`. */
  function FormatDatabaseUrl(raw: string): (r: string)
    ensures StartsWith(raw, PostgresScheme) ==> r == PsycopgScheme + raw[|PostgresScheme|..]
    ensures StartsWith(raw, PostgresqlScheme) ==> r == PsycopgScheme + raw[|PostgresqlScheme|..]
    ensures !StartsWith(raw, PostgresScheme) && !StartsWith(raw, PostgresqlScheme) ==> r == raw
  {
    SchemeMarks(raw);
    if StartsWith(raw, PostgresScheme) then
      ReplaceAtStart(raw, PostgresScheme, PsycopgScheme);
      ReplaceFirst(raw, PostgresScheme, PsycopgScheme)
    else if StartsWith(raw, PostgresqlScheme) && !StartsWith(raw, PsycopgScheme) then
      ReplaceAtStart(raw, PostgresqlScheme, PsycopgScheme);
      ReplaceFirst(raw, PostgresqlScheme, PsycopgScheme)
    else
      raw
  }

  /** The characters that tell the three schemes apart. */
  lemma SchemeMarks(raw: string)
    ensures StartsWith(raw, PostgresScheme) ==> raw[8] == ':'
    ensures StartsWith(raw, PostgresqlScheme) ==> raw[8] == 'q' && raw[10] == ':'
    ensures StartsWith(raw, PsycopgScheme) ==> raw[8] == 'q' && raw[10] == '+'
  {
    if StartsWith(raw, PostgresScheme) {
      assert raw[8] == raw[..|PostgresScheme|][8];
    }
    if StartsWith(raw, PostgresqlScheme) {
      assert raw[8] == raw[..|PostgresqlScheme|][8];
      assert raw[10] == raw[..|PostgresqlScheme|][10];
    }
    if StartsWith(raw, PsycopgScheme) {
      assert raw[8] == raw[..|PsycopgScheme|][8];
      assert raw[10] == raw[..|PsycopgScheme|][10];
    }
  }

  /** `postgres://rest` becomes `postgresql+psycopg://rest`, the rest kept character for character. */
  lemma PostgresRewritten(rest: string)
    ensures FormatDatabaseUrl(PostgresScheme + rest) == PsycopgScheme + rest
  {
    var raw := PostgresScheme + rest;
    assert raw[..|PostgresScheme|] == PostgresScheme;
    assert raw[|PostgresScheme|..] == rest;
  }

  /** `postgresql://rest` becomes `postgresql+psycopg://rest`. */
  lemma PostgresqlRewritten(rest: string)
    ensures FormatDatabaseUrl(PostgresqlScheme + rest) == PsycopgScheme + rest
  {
    var raw := PostgresqlScheme + rest;
    assert raw[..|PostgresqlScheme|] == PostgresqlScheme;
    assert raw[|PostgresqlScheme|..] == rest;
  }

  /** A URL that already names the psycopg driver is left alone. */
  lemma PsycopgUnchanged(raw: string)
    requires StartsWith(raw, PsycopgScheme)
    ensures FormatDatabaseUrl(raw) == raw
  {
    SchemeMarks(raw);
  }

  /** The rewrite is idempotent: formatting a formatted URL changes nothing. */
  lemma FormatIdempotent(raw: string)
    ensures FormatDatabaseUrl(FormatDatabaseUrl(raw)) == FormatDatabaseUrl(raw)
  {
    var r := FormatDatabaseUrl(raw);
    if StartsWith(raw, PostgresScheme) || StartsWith(raw, PostgresqlScheme) {
      assert StartsWith(r, PsycopgScheme) by {
        assert r[..|PsycopgScheme|] == PsycopgScheme;
      }
      PsycopgUnchanged(r);
    }
  }

  /** The URL changes exactly when it is a Postgres URL that does not already name psycopg. */
  lemma FormatChangesOnlyPostgres(raw: string)
    ensures FormatDatabaseUrl(raw) != raw <==>
      StartsWith(raw, PostgresScheme) || StartsWith(raw, PostgresqlScheme)
  {
    SchemeMarks(raw);
    if StartsWith(raw, PostgresScheme) || StartsWith(raw, PostgresqlScheme) {
      var r := FormatDatabaseUrl(raw);
      assert StartsWith(r, PsycopgScheme) by {
        assert r[..|PsycopgScheme|] == PsycopgScheme;
      }
      SchemeMarks(r);
    }
  }
}
