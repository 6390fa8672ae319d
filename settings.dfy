/**
  * The backend's configuration values and the two derived views it offers: the
  * list of origins allowed by CORS and the consolidated Supabase storage
  * configuration. Environment loading and URL validation are not modelled; a
  * URL field holds the text `str(url)` gives back.
  */
module Settings {
  import opened Wrappers

  /** The fields of `Settings`, as loaded. */
  datatype AppSettings = AppSettings(
    databaseUrl: string,
    supabaseUrl: Option<string>,
    supabaseAnonKey: Option<string>,
    supabaseServiceRoleKey: Option<string>,
    supabaseBucket: string,
    adminToken: string,
    corsOrigins: Option<seq<string>>,
    allowedOrigins: string,
    tz: string)

  /** The storage settings handed to the Supabase client. */
  datatype SupabaseConfig = SupabaseConfig(url: string, anonKey: string, serviceRoleKey: string, bucket: string)

  // ---------------------------------------------------------------------------
  // Whitespace and strip

  /** The characters Python's str methods treat as whitespace (`str.isspace()`). */
  const Whitespace: set<char> := {
    '\t', '\n', '\U{0B}', '\U{0C}', '\r', '\U{1C}', '\U{1D}', '\U{1E}', '\U{1F}', ' ',
    '\U{85}', '\U{A0}', '\U{1680}', '\U{2000}', '\U{2001}', '\U{2002}', '\U{2003}',
    '\U{2004}', '\U{2005}', '\U{2006}', '\U{2007}', '\U{2008}', '\U{2009}', '\U{200A}',
    '\U{2028}', '\U{2029}', '\U{202F}', '\U{205F}', '\U{3000}'
  }

  predicate IsSpace(c: char) {
    c in Whitespace
  }

  predicate AllSpace(s: string) {
    forall i | 0 <= i < |s| :: IsSpace(s[i])
  }

  /** Neither end of `s` is whitespace. */
  predicate NotPadded(s: string) {
    s == [] || (!IsSpace(s[0]) && !IsSpace(s[|s| - 1]))
  }

  /** `s.lstrip()`: leading whitespace dropped; the last character stays where there is one. */
  function TrimStart(s: string): (r: string)
    ensures |r| <= |s|
    ensures r == [] || !IsSpace(r[0])
    ensures r != [] ==> r[|r| - 1] == s[|s| - 1]
  {
    if s != [] && IsSpace(s[0]) then TrimStart(s[1..]) else s
  }

  /** `s.rstrip()`: trailing whitespace dropped; the first character stays where there is one. */
  function TrimEnd(s: string): (r: string)
    ensures |r| <= |s|
    ensures r == [] || !IsSpace(r[|r| - 1])
    ensures r != [] ==> r[0] == s[0]
  {
    if s != [] && IsSpace(s[|s| - 1]) then TrimEnd(s[..|s| - 1]) else s
  }

  /** What lstrip keeps is a suffix of `s`, and what it drops is whitespace. */
  lemma {:induction false} TrimStartSlice(s: string)
    ensures TrimStart(s) == s[|s| - |TrimStart(s)|..]
    ensures AllSpace(s[..|s| - |TrimStart(s)|])
  {
    if s != [] && IsSpace(s[0]) {
      var r := TrimStart(s[1..]);
      TrimStartSlice(s[1..]);
      assert s[1..][|s| - 1 - |r|..] == s[|s| - |r|..];
      assert s[..|s| - |r|] == [s[0]] + s[1..][..|s| - 1 - |r|];
      SpacesJoin([s[0]], s[1..][..|s| - 1 - |r|]);
    }
  }

  lemma SpacesJoin(a: string, b: string)
    requires AllSpace(a) && AllSpace(b)
    ensures AllSpace(a + b)
  {
    assert forall i | |a| <= i < |a + b| :: (a + b)[i] == b[i - |a|];
  }

  /** What rstrip keeps is a prefix of `s`, and what it drops is whitespace. */
  lemma {:induction false} TrimEndSlice(s: string)
    ensures TrimEnd(s) == s[..|TrimEnd(s)|]
    ensures AllSpace(s[|TrimEnd(s)|..])
  {
    if s != [] && IsSpace(s[|s| - 1]) {
      var r := TrimEnd(s[..|s| - 1]);
      TrimEndSlice(s[..|s| - 1]);
      assert s[..|s| - 1][..|r|] == s[..|r|];
      assert s[|r|..] == s[..|s| - 1][|r|..] + [s[|s| - 1]];
      SpacesJoin(s[..|s| - 1][|r|..], [s[|s| - 1]]);
    }
  }

  /** `s.strip()`: neither end of the result is whitespace. */
  function Strip(s: string): (r: string)
    ensures NotPadded(r)
  {
    TrimEnd(TrimStart(s))
  }

  /** How the two trims meet: blank text leaves nothing. */
  lemma BlankTrimmed(s: string, t: string, r: string)
    requires t == TrimStart(s) && r == TrimEnd(t)
    ensures r == [] <==> AllSpace(s)
  {
    TrimStartSlice(s);
    TrimEndSlice(t);
    if r == [] {
      assert t[|r|..] == t;
      assert t == [];
      assert s[..|s| - |t|] == s;
    } else {
      assert !IsSpace(s[|s| - |t|]);
    }
  }

  /** Where the text `strip` keeps starts: after the leading whitespace. */
  function StripOffset(s: string): nat {
    |s| - |TrimStart(s)|
  }

  /**
    * What strip leaves is a slice of `s` with only whitespace around it; it is empty
    * exactly when `s` is all whitespace.
    */
  lemma {:induction false} StripSpec(s: string)
    ensures StripOffset(s) + |Strip(s)| <= |s|
    ensures Strip(s) == s[StripOffset(s)..StripOffset(s) + |Strip(s)|]
    ensures AllSpace(s[..StripOffset(s)]) && AllSpace(s[StripOffset(s) + |Strip(s)|..])
    ensures Strip(s) == [] <==> AllSpace(s)
  {
    var t := TrimStart(s);
    var r := TrimEnd(t);
    BlankTrimmed(s, t, r);
    TrimStartSlice(s);
    TrimEndSlice(t);
    var i := |s| - |t|;
    assert r == s[i..i + |r|];
    assert s[i + |r|..] == t[|r|..];
  }

  /** Text with no padding is its own strip. */
  lemma StripUnpadded(s: string)
    requires NotPadded(s)
    ensures Strip(s) == s
  {
  }

  /** Strip only removes characters, so a character absent from `s` is absent from its strip. */
  lemma {:induction false} StripKeepsOut(s: string, c: char)
    requires c !in s
    ensures c !in Strip(s)
  {
    StripSpec(s);
  }

  // ---------------------------------------------------------------------------
  // Split and join on one separator character

  /** The index of the first `c` in `s`. */
  function IndexOf(s: string, c: char): (i: nat)
    requires c in s
    ensures i < |s| && s[i] == c && c !in s[..i]
  {
    if s[0] == c then 0
    else
      var i := 1 + IndexOf(s[1..], c);
      assert s[..i] == [s[0]] + s[1..][..i - 1];
      i
  }

  /** `sep.join(pieces)` for a one-character separator. */
  function JoinWith(pieces: seq<string>, c: char): string {
    if pieces == [] then ""
    else if |pieces| == 1 then pieces[0]
    else pieces[0] + [c] + JoinWith(pieces[1..], c)
  }

  /** `s.split(c)`: the pieces between separators, at least one, none holding `c`. */
  function SplitOn(s: string, c: char): (r: seq<string>)
    ensures |r| >= 1
    ensures forall k | 0 <= k < |r| :: c !in r[k]
    ensures JoinWith(r, c) == s
    decreases |s|
  {
    if c !in s then [s]
    else
      var i := IndexOf(s, c);
      var rest := SplitOn(s[i + 1..], c);
      assert s == s[..i] + [c] + s[i + 1..];
      [s[..i]] + rest
  }

  /** Splitting what was joined gives the pieces back, when no piece holds the separator. */
  lemma {:induction false} SplitJoin(pieces: seq<string>, c: char)
    requires |pieces| >= 1
    requires forall k | 0 <= k < |pieces| :: c !in pieces[k]
    ensures SplitOn(JoinWith(pieces, c), c) == pieces
  {
    var s := JoinWith(pieces, c);
    if |pieces| > 1 {
      var p := pieces[0];
      assert s == p + [c] + JoinWith(pieces[1..], c);
      assert s[|p|] == c;
      assert s[..|p|] == p;
      assert IndexOf(s, c) == |p|;
      assert s[|p| + 1..] == JoinWith(pieces[1..], c);
      SplitJoin(pieces[1..], c);
      assert pieces == [p] + pieces[1..];
    }
  }

  // ---------------------------------------------------------------------------
  // resolved_cors_origins

  /** `[p.strip() for p in pieces if p.strip()]`. */
  function CleanPieces(pieces: seq<string>): (r: seq<string>)
    ensures |r| <= |pieces|
    ensures forall k | 0 <= k < |r| :: r[k] != "" && NotPadded(r[k])
  {
    if pieces == [] then []
    else
      var t := Strip(pieces[0]);
      var rest := CleanPieces(pieces[1..]);
      if t == "" then rest else [t] + rest
  }

  /** A piece kept is the strip of some input piece, and pieces free of `c` give results free of `c`. */
  lemma {:induction false} CleanPiecesFrom(pieces: seq<string>, c: char)
    requires forall k | 0 <= k < |pieces| :: c !in pieces[k]
    ensures forall k | 0 <= k < |CleanPieces(pieces)| :: c !in CleanPieces(pieces)[k]
    ensures forall x | x in CleanPieces(pieces) :: exists p | p in pieces :: x == Strip(p)
  {
    if pieces != [] {
      StripKeepsOut(pieces[0], c);
      CleanPiecesFrom(pieces[1..], c);
      var t := Strip(pieces[0]);
      var r := CleanPieces(pieces);
      assert r == if t == "" then CleanPieces(pieces[1..]) else [t] + CleanPieces(pieces[1..]);
      forall x | x in r
        ensures exists p | p in pieces :: x == Strip(p)
      {
        if x != t {
          assert x in CleanPieces(pieces[1..]);
          var p :| p in pieces[1..] && x == Strip(p);
          assert p in pieces;
        } else {
          assert pieces[0] in pieces;
        }
      }
    }
  }

  /** Pieces that are already clean pass through unchanged and in order. */
  lemma {:induction false} CleanPiecesKeepsClean(pieces: seq<string>)
    requires forall k | 0 <= k < |pieces| :: pieces[k] != "" && NotPadded(pieces[k])
    ensures CleanPieces(pieces) == pieces
  {
    if pieces != [] {
      var rest := pieces[1..];
      assert forall k | 0 <= k < |rest| :: rest[k] == pieces[k + 1];
      CleanPiecesKeepsClean(rest);
      StripUnpadded(pieces[0]);
      CleanStep(pieces);
      HeadAndTail(pieces);
    }
  }

  lemma HeadAndTail<T>(s: seq<T>)
    requires s != []
    ensures s == [s[0]] + s[1..]
  {
  }

  /** A piece that strips to some text contributes that text, ahead of the rest. */
  lemma CleanStep(pieces: seq<string>)
    requires pieces != [] && Strip(pieces[0]) != ""
    ensures CleanPieces(pieces) == [Strip(pieces[0])] + CleanPieces(pieces[1..])
  {
  }

  /** One piece contributes its strip, or nothing when it strips to nothing. */
  lemma CleanPiecesOne(x: string)
    ensures CleanPieces([x]) == if Strip(x) == "" then [] else [Strip(x)]
  {
    assert [x][1..] == [];
  }

  /** Cleaning works piece by piece: the clean pieces of a concatenation are concatenated in order. */
  lemma {:induction false} CleanPiecesConcat(p: seq<string>, q: seq<string>)
    ensures CleanPieces(p + q) == CleanPieces(p) + CleanPieces(q)
  {
    if p == [] {
      assert p + q == q;
    } else {
      assert (p + q)[0] == p[0];
      assert (p + q)[1..] == p[1..] + q;
      CleanPiecesConcat(p[1..], q);
      if Strip(p[0]) != "" {
        SeqAssoc([Strip(p[0])], CleanPieces(p[1..]), CleanPieces(q));
      }
    }
  }

  lemma SeqAssoc<T>(a: seq<T>, b: seq<T>, c: seq<T>)
    ensures a + (b + c) == (a + b) + c
  {
  }

  /** The configured origin list is used when it is present and non-empty. */
  predicate HasCorsOrigins(s: AppSettings) {
    s.corsOrigins.Some? && |s.corsOrigins.value| > 0
  }

  /** `resolved_cors_origins`. */
  function ResolvedCorsOrigins(s: AppSettings): (r: seq<string>)
    ensures HasCorsOrigins(s) ==> r == s.corsOrigins.value
    ensures !HasCorsOrigins(s) ==> forall k | 0 <= k < |r| :: r[k] != "" && NotPadded(r[k]) && ',' !in r[k]
  {
    if HasCorsOrigins(s) then s.corsOrigins.value
    else
      var raw := Strip(s.allowedOrigins);
      if raw == "" then []
      else if raw == "*" then ["*"]
      else
        CleanPiecesFrom(SplitOn(raw, ','), ',');
        CleanPieces(SplitOn(raw, ','))
  }

  /**
    * Without a configured list and other than `*`, the origins are the comma pieces
    * of the stripped text, each stripped, the empty ones dropped, in order.
    */
  lemma ResolvedFromPieces(s: AppSettings)
    requires !HasCorsOrigins(s) && Strip(s.allowedOrigins) != "*"
    ensures ResolvedCorsOrigins(s) == CleanPieces(SplitOn(Strip(s.allowedOrigins), ','))
  {
    var raw := Strip(s.allowedOrigins);
    if raw == "" {
      assert SplitOn(raw, ',') == [raw];
      CleanPiecesOne(raw);
    }
  }

  /** Padding around the list and around each origin is dropped: " a , b " allows "a" and "b". */
  lemma PaddedListExample(s: AppSettings)
    requires !HasCorsOrigins(s) && s.allowedOrigins == " a , b "
    ensures ResolvedCorsOrigins(s) == ["a", "b"]
  {
    ExampleListPieces();
    ExamplePiecesCleaned();
    ResolvedFromPieces(s);
  }

  /** The example list, stripped and split at its comma. */
  lemma ExampleListPieces()
    ensures SplitOn(Strip(" a , b "), ',') == ["a ", " b"]
  {
    ExampleListStripped();
    ExampleListSplit();
  }

  lemma ExampleListStripped()
    ensures Strip(" a , b ") == "a , b"
  {
    assert !IsSpace('a') && !IsSpace('b') && IsSpace(' ');
    assert " a , b "[1..] == "a , b ";
    assert TrimStart(" a , b ") == "a , b ";
    assert "a , b "[..5] == "a , b";
    assert TrimEnd("a , b ") == "a , b";
  }

  lemma ExampleListSplit()
    ensures SplitOn("a , b", ',') == ["a ", " b"]
  {
    var pieces := ["a ", " b"];
    assert JoinWith(pieces[1..], ',') == " b";
    assert JoinWith(pieces, ',') == "a , b";
    SplitJoin(pieces, ',');
  }

  /** The example's two pieces, cleaned. */
  lemma ExamplePiecesCleaned()
    ensures CleanPieces(["a ", " b"]) == ["a", "b"]
  {
    assert ["a ", " b"] == ["a "] + [" b"];
    CleanPiecesConcat(["a "], [" b"]);
    ExamplePiecesStripped();
    CleanPiecesOne("a ");
    CleanPiecesOne(" b");
  }

  lemma ExamplePiecesStripped()
    ensures Strip("a ") == "a" && Strip(" b") == "b"
  {
    assert !IsSpace('a') && !IsSpace('b') && IsSpace(' ');
    assert TrimStart("a ") == "a ";
    assert "a "[..1] == "a";
    assert " b"[1..] == "b";
    assert TrimStart(" b") == "b";
  }

  /** Without a configured list, blank `allowed_origins` allows no origin. */
  lemma BlankAllowsNone(s: AppSettings)
    requires !HasCorsOrigins(s) && AllSpace(s.allowedOrigins)
    ensures ResolvedCorsOrigins(s) == []
  {
    StripSpec(s.allowedOrigins);
  }

  /** Without a configured list, `*` (padding aside) allows every origin. */
  lemma StarAllowsAll(s: AppSettings)
    requires !HasCorsOrigins(s) && Strip(s.allowedOrigins) == "*"
    ensures ResolvedCorsOrigins(s) == ["*"]
  {
  }

  /** Every origin resolved from the comma list is the strip of one of its pieces. */
  lemma {:induction false} OriginsComeFromPieces(s: AppSettings, x: string)
    requires !HasCorsOrigins(s) && x in ResolvedCorsOrigins(s)
    ensures exists p | p in SplitOn(Strip(s.allowedOrigins), ',') :: x == Strip(p)
  {
    var raw := Strip(s.allowedOrigins);
    if raw == "*" {
      assert x == "*";
      assert SplitOn(raw, ',') == [raw];
      StripUnpadded(raw);
      assert raw in SplitOn(raw, ',');
    } else {
      CleanPiecesFrom(SplitOn(raw, ','), ',');
    }
  }

  /** The first character of a join is that of its first piece, the last that of its last piece. */
  lemma {:induction false} JoinEnds(pieces: seq<string>, c: char)
    requires |pieces| >= 1 && forall k | 0 <= k < |pieces| :: pieces[k] != ""
    ensures |JoinWith(pieces, c)| >= |pieces[0]|
    ensures JoinWith(pieces, c)[0] == pieces[0][0]
    ensures JoinWith(pieces, c)[|JoinWith(pieces, c)| - 1] == pieces[|pieces| - 1][|pieces[|pieces| - 1]| - 1]
  {
    if |pieces| > 1 {
      JoinEnds(pieces[1..], c);
    }
  }

  /**
    * Origins written as a comma-separated `allowed_origins` are read back as the same
    * list, in the same order, when each is non-empty, unpadded and free of commas.
    */
  lemma {:induction false} AllowedOriginsRoundTrip(s: AppSettings, origins: seq<string>)
    requires !HasCorsOrigins(s) && s.allowedOrigins == JoinWith(origins, ',')
    requires forall k | 0 <= k < |origins| :: origins[k] != "" && NotPadded(origins[k]) && ',' !in origins[k]
    ensures ResolvedCorsOrigins(s) == origins
  {
    var raw := s.allowedOrigins;
    if origins != [] {
      JoinEnds(origins, ',');
      StripUnpadded(raw);
      JoinIsStar(origins, ',');
      if raw != "*" {
        SplitJoin(origins, ',');
        CleanPiecesKeepsClean(origins);
      }
    }
  }

  /** Joining two or more non-empty pieces puts a separator in the text, so only ["*"] joins to "*". */
  lemma JoinIsStar(pieces: seq<string>, c: char)
    requires |pieces| >= 1 && forall k | 0 <= k < |pieces| :: pieces[k] != "" && c !in pieces[k]
    requires c != '*'
    ensures JoinWith(pieces, c) == "*" ==> pieces == ["*"]
  {
    if |pieces| > 1 {
      var s := JoinWith(pieces, c);
      assert s == pieces[0] + [c] + JoinWith(pieces[1..], c);
      assert s[|pieces[0]|] == c;
    }
  }

  // ---------------------------------------------------------------------------
  // supabase_config

  /** `s.rstrip("/")`: the prefix left once trailing slashes are dropped. */
  function RStripSlash(s: string): (r: string)
    ensures |r| <= |s| && r == s[..|r|]
    ensures forall k | |r| <= k < |s| :: s[k] == '/'
    ensures r == [] || r[|r| - 1] != '/'
  {
    if s != [] && s[|s| - 1] == '/' then RStripSlash(s[..|s| - 1]) else s
  }

  /** `x or ""` for an optional text. */
  function OrEmpty(x: Option<string>): string {
    if x.Some? then x.value else ""
  }

  /** `supabase_config`: present only when both the URL and the service role key are set. */
  function SupabaseConfigOf(s: AppSettings): (r: Option<SupabaseConfig>)
    ensures r.None? <==> OrEmpty(s.supabaseUrl) == "" || OrEmpty(s.supabaseServiceRoleKey) == ""
    ensures r.Some? ==> r.value.serviceRoleKey == s.supabaseServiceRoleKey.value != ""
    ensures r.Some? ==> r.value.bucket == (if s.supabaseBucket != "" then s.supabaseBucket else "receipts")
    ensures r.Some? ==> r.value.anonKey == OrEmpty(s.supabaseAnonKey)
    ensures r.Some? ==> r.value.url == RStripSlash(s.supabaseUrl.value)
    ensures r.Some? ==> |r.value.url| <= |s.supabaseUrl.value| && s.supabaseUrl.value[..|r.value.url|] == r.value.url
                        && (r.value.url == "" || r.value.url[|r.value.url| - 1] != '/')
  {
    if OrEmpty(s.supabaseUrl) == "" || OrEmpty(s.supabaseServiceRoleKey) == "" then None
    else
      Some(SupabaseConfig(
        RStripSlash(s.supabaseUrl.value),
        OrEmpty(s.supabaseAnonKey),
        s.supabaseServiceRoleKey.value,
        if s.supabaseBucket != "" then s.supabaseBucket else "receipts"))
  }

  /** Trailing slashes added to a text are all stripped again. */
  lemma {:induction false} RStripSlashExtra(u: string, extra: string)
    requires forall k | 0 <= k < |extra| :: extra[k] == '/'
    ensures RStripSlash(u + extra) == RStripSlash(u)
  {
    if extra != [] {
      var e := extra[..|extra| - 1];
      assert (u + extra)[..|u + extra| - 1] == u + e;
      RStripSlashExtra(u, e);
    } else {
      assert u + extra == u;
    }
  }

  /** A URL given with or without trailing slashes yields the same configuration. */
  lemma TrailingSlashesIgnored(s: AppSettings, extra: string)
    requires s.supabaseUrl.Some? && s.supabaseUrl.value != ""
    requires forall k | 0 <= k < |extra| :: extra[k] == '/'
    ensures SupabaseConfigOf(s.(supabaseUrl := Some(s.supabaseUrl.value + extra))) == SupabaseConfigOf(s)
  {
    RStripSlashExtra(s.supabaseUrl.value, extra);
  }
}
