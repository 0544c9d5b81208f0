/**
 * The repository: keyword search over the image index and the cleanup entry point. A query is
 * cut into keywords; the store query is a conjunction with one clause per keyword, each clause
 * asking that the keyword occur in the extracted text, the file name or the folder path.
 */
module Repository {
  import opened Text
  import opened Entities
  import opened ImageStore

  // ---------------------------------------------------------------------------------------
  // Tokenisation

  /** `filter { it.isNotBlank() }`. */
  function DropBlank(parts: seq<string>): (r: seq<string>)
    ensures forall k :: k in r <==> k in parts && !IsBlank(k)
  {
    if parts == [] then []
    else DropBlank(parts[..|parts| - 1]) + (if IsBlank(parts[|parts| - 1]) then [] else [parts[|parts| - 1]])
  }

  /** No piece of the split holds a `\s` character. */
  lemma {:induction false} SplitPartsWithoutSpaces(s: string)
    ensures forall p :: p in SplitOnSpaceRuns(s) ==> forall i :: 0 <= i < |p| ==> !IsRegexSpace(p[i])
    decreases |s|
  {
    var w := Word(s);
    if |w| != |s| {
      SplitPartsWithoutSpaces(SkipSpaces(s[|w|..]));
    } else {
      assert s == w;
    }
  }

  /** The keywords of a query: trimmed, split on whitespace runs, blanks dropped. */
  function Keywords(query: string): (ks: seq<string>)
    ensures forall k :: k in ks ==> k != [] && !IsBlank(k) && forall i :: 0 <= i < |k| ==> !IsRegexSpace(k[i])
  {
    SplitPartsWithoutSpaces(Trim(query));
    DropBlank(SplitOnSpaceRuns(Trim(query)))
  }

  /**
   * A query that is not blank has at least one keyword, its first word; so the second
   * empty-result branch of `searchImages` is never taken.
   */
  lemma NonBlankQueryHasKeywords(query: string)
    requires !IsBlank(query)
    ensures Word(Trim(query)) in Keywords(query)
    ensures Keywords(query) != []
  {
    var t := Trim(query);
    var w := Word(t);
    assert t != [] && !IsWhitespace(t[0]);
    assert w != [];
    assert w[0] == t[0];
    assert !IsBlank(w);
    assert SplitOnSpaceRuns(t)[0] == w;
  }

  /**
   * A word with no `\s` character that neither starts nor ends with whitespace is its own,
   * single keyword, even when it holds whitespace that `\s` does not match.
   */
  lemma SingleWordKeyword(w: string)
    requires w != [] && !IsWhitespace(w[0]) && !IsWhitespace(w[|w| - 1])
    requires forall i :: 0 <= i < |w| ==> !IsRegexSpace(w[i])
    ensures Keywords(w) == [w]
  {
    assert TrimStart(w) == w;
    assert TrimEnd(w) == w;
    assert Trim(w) == w;
    assert |Word(w)| == |w|;
    assert SplitOnSpaceRuns(w) == [w];
    assert !IsBlank(w);
    assert DropBlank([w]) == DropBlank([]) + [w];
  }

  /** A nonempty run of `\s` characters, as a query may hold between its words. */
  predicate IsSpaceRun(run: string)
  {
    run != [] && forall i :: 0 <= i < |run| ==> IsRegexSpace(run[i])
  }

  /** A word as a query may hold it: nonempty, not blank and without `\s` characters. */
  predicate IsQueryWord(w: string)
  {
    w != [] && !IsBlank(w) && forall i :: 0 <= i < |w| ==> !IsRegexSpace(w[i])
  }

  /** The words `ws` with the runs `runs` between them: `ws[0] + runs[0] + ws[1] + …`. */
  function JoinRuns(ws: seq<string>, runs: seq<string>): (q: string)
    requires |ws| == |runs| + 1
    ensures |ws[0]| <= |q| && q[..|ws[0]|] == ws[0]
    ensures |ws[|ws| - 1]| <= |q| && q[|q| - |ws[|ws| - 1]|..] == ws[|ws| - 1]
    decreases |runs|
  {
    if runs == [] then ws[0]
    else
      var rest := JoinRuns(ws[1..], runs[1..]);
      assert (ws[0] + runs[0] + rest)[|ws[0] + runs[0] + rest| - |rest|..] == rest;
      ws[0] + runs[0] + rest
  }

  /** A word, a run of `\s` characters and a text that starts with neither split as the word, then the text. */
  lemma SplitWordRun(w: string, run: string, rest: string)
    requires IsQueryWord(w) && IsSpaceRun(run)
    requires rest != [] && !IsRegexSpace(rest[0])
    ensures SplitOnSpaceRuns(w + run + rest) == [w] + SplitOnSpaceRuns(rest)
  {
    var tail := run + rest;
    assert w + run + rest == w + tail;
    assert IsRegexSpace(tail[0]);
    WordBeforeSpace(w, tail);
    assert (w + tail)[|w|..] == tail;
    SkipSpaceRun(run, rest);
  }

  lemma HeadTail<T>(s: seq<T>)
    requires s != []
    ensures s == [s[0]] + s[1..]
  {
  }

  /** Splitting the joined words at their runs gives back the words. */
  lemma {:induction false} SplitJoinRuns(ws: seq<string>, runs: seq<string>)
    requires |ws| == |runs| + 1
    requires forall i :: 0 <= i < |ws| ==> IsQueryWord(ws[i])
    requires forall j :: 0 <= j < |runs| ==> IsSpaceRun(runs[j])
    ensures SplitOnSpaceRuns(JoinRuns(ws, runs)) == ws
    decreases |runs|
  {
    var w := ws[0];
    assert IsQueryWord(w);
    if runs == [] {
      WordBeforeSpace(w, []);
      assert w + [] == w;
    } else {
      var ws', runs' := ws[1..], runs[1..];
      forall i | 0 <= i < |ws'| ensures IsQueryWord(ws'[i]) {
        assert ws'[i] == ws[i + 1];
      }
      forall j | 0 <= j < |runs'| ensures IsSpaceRun(runs'[j]) {
        assert runs'[j] == runs[j + 1];
      }
      SplitJoinRuns(ws', runs');
      var rest := JoinRuns(ws', runs');
      assert IsQueryWord(ws'[0]) && rest[0] == ws'[0][0];
      assert IsSpaceRun(runs[0]);
      SplitWordRun(w, runs[0], rest);
      HeadTail(ws);
    }
  }

  lemma InitLast<T>(s: seq<T>)
    requires s != []
    ensures s == s[..|s| - 1] + [s[|s| - 1]]
  {
  }

  /** Dropping blanks keeps a list of words without blanks as it is. */
  lemma {:induction false} DropBlankKeepsWords(parts: seq<string>)
    requires forall i :: 0 <= i < |parts| ==> !IsBlank(parts[i])
    ensures DropBlank(parts) == parts
  {
    if parts != [] {
      var init := parts[..|parts| - 1];
      var last := parts[|parts| - 1];
      forall i | 0 <= i < |init| ensures !IsBlank(init[i]) {
        assert init[i] == parts[i];
      }
      DropBlankKeepsWords(init);
      assert !IsBlank(last);
      assert DropBlank(parts) == DropBlank(init) + [last];
      InitLast(parts);
    }
  }

  /**
   * The keywords of a query are its words: any words, joined by any runs of `\s` characters,
   * come back in order, provided the query has no whitespace at either end for `trim` to remove.
   */
  lemma KeywordsRoundTrip(ws: seq<string>, runs: seq<string>)
    requires |ws| == |runs| + 1
    requires forall i :: 0 <= i < |ws| ==> IsQueryWord(ws[i])
    requires forall j :: 0 <= j < |runs| ==> IsSpaceRun(runs[j])
    requires ws[0] != [] && !IsWhitespace(ws[0][0])
    requires ws[|ws| - 1] != [] && !IsWhitespace(ws[|ws| - 1][|ws[|ws| - 1]| - 1])
    ensures Keywords(JoinRuns(ws, runs)) == ws
  {
    var q := JoinRuns(ws, runs);
    assert q[0] == ws[0][0];
    assert q[|q| - 1] == ws[|ws| - 1][|ws[|ws| - 1]| - 1];
    assert TrimStart(q) == q;
    assert TrimEnd(q) == q;
    SplitJoinRuns(ws, runs);
    DropBlankKeepsWords(ws);
  }

  /** The query "a", no-break space, "b" is one keyword: the no-break space stays in it. */
  lemma NoBreakSpaceKept()
    ensures Keywords("a\U{00A0}b") == ["a\U{00A0}b"]
  {
    SingleWordKeyword("a\U{00A0}b");
  }

  // ---------------------------------------------------------------------------------------
  // The store query

  /** What `searchImages` hands to the store: nothing at all, or a raw query with its arguments. */
  datatype Plan = NoQuery | RawQuery(sql: string, args: seq<string>)

  const SelectPrefix: string := "SELECT * FROM images WHERE "
  /** `(extractedText LIKE ? OR fileName LIKE ? OR folderPath LIKE ?)`, written around its three placeholders. */
  const KeywordClause: string := "(extractedText LIKE " + "?" + " OR fileName LIKE " + "?" + " OR folderPath LIKE " + "?" + ")"
  const Conjunction: string := " AND "

  /** The query text after `n` keyword clauses: the `SELECT` prefix, then the clauses joined by `" AND "`. */
  function QueryText(n: nat): string
  {
    if n == 0 then SelectPrefix else QueryText(n - 1) + (if n > 1 then Conjunction else "") + KeywordClause
  }

  function LikePattern(keyword: string): (p: string)
    ensures |p| == |keyword| + 2 && p[0] == '%' && p[|p| - 1] == '%' && p[1..|p| - 1] == keyword
  {
    "%" + keyword + "%"
  }

  /** Three copies of each keyword's pattern, one per column of its clause. */
  function KeywordArgs(keywords: seq<string>): (args: seq<string>)
    ensures |args| == 3 * |keywords|
  {
    if keywords == [] then []
    else
      var p := LikePattern(keywords[|keywords| - 1]);
      KeywordArgs(keywords[..|keywords| - 1]) + [p, p, p]
  }

  /** The arguments of clause `i` are the pattern of keyword `i`, three times. */
  lemma {:induction false} KeywordArgsAt(keywords: seq<string>, i: nat)
    requires i < |keywords|
    ensures var args := KeywordArgs(keywords);
      args[3 * i] == args[3 * i + 1] == args[3 * i + 2] == LikePattern(keywords[i])
  {
    var init := keywords[..|keywords| - 1];
    if i < |init| {
      KeywordArgsAt(init, i);
      assert init[i] == keywords[i];
    }
  }

  /** `searchImagesWithKeywords`: the query text and the argument list, built clause by clause. */
  method SearchImagesWithKeywords(keywords: seq<string>) returns (sql: string, args: seq<string>)
    ensures sql == QueryText(|keywords|)
    ensures args == KeywordArgs(keywords)
  {
    var queryBuilder := SelectPrefix;
    args := [];
    for index := 0 to |keywords|
      invariant queryBuilder == QueryText(index)
      invariant args == KeywordArgs(keywords[..index])
    {
      if index > 0 {
        queryBuilder := queryBuilder + Conjunction;
      }
      queryBuilder := queryBuilder + KeywordClause;
      var likePattern := "%" + keywords[index] + "%";
      args := args + [likePattern] + [likePattern] + [likePattern];
      assert keywords[..index + 1][..index] == keywords[..index];
    }
    assert keywords[..|keywords|] == keywords;
    sql := queryBuilder;
  }

  /**
   * `searchImages`: no store query for a blank query or an empty keyword list, otherwise the
   * keyword query for the query's keywords.
   */
  method SearchImages(query: string) returns (plan: Plan)
    ensures plan == NoQuery <==> IsBlank(query) || Keywords(query) == []
    ensures plan.RawQuery? ==> plan == RawQuery(QueryText(|Keywords(query)|), KeywordArgs(Keywords(query)))
  {
    if IsBlank(query) {
      return NoQuery;
    }
    var keywords := Keywords(query);
    if keywords == [] {
      return NoQuery;
    }
    var sql, args := SearchImagesWithKeywords(keywords);
    plan := RawQuery(sql, args);
  }

  // ---------------------------------------------------------------------------------------
  // What the query selects

  function Occurrences(s: string, c: char): nat
  {
    if s == [] then 0 else Occurrences(s[..|s| - 1], c) + (if s[|s| - 1] == c then 1 else 0)
  }

  lemma {:induction false} OccurrencesConcat(a: string, b: string, c: char)
    ensures Occurrences(a + b, c) == Occurrences(a, c) + Occurrences(b, c)
    decreases |b|
  {
    if b == [] {
      assert a + b == a;
    } else {
      assert (a + b)[..|a + b| - 1] == a + b[..|b| - 1];
      OccurrencesConcat(a, b[..|b| - 1], c);
    }
  }

  /** The built query has one `?` placeholder per argument. */
  lemma PlaceholdersMatchArgs(keywords: seq<string>)
    ensures Occurrences(QueryText(|keywords|), '?') == |KeywordArgs(keywords)|
  {
    QueryTextPlaceholders(|keywords|);
  }

  lemma {:induction false} NoPlaceholder(s: string, n: nat)
    requires n <= |s| && '?' !in s
    ensures Occurrences(s[..n], '?') == 0
  {
    if n > 0 {
      assert s[..n][..n - 1] == s[..n - 1];
      NoPlaceholder(s, n - 1);
      assert s[..n][n - 1] == s[n - 1];
    }
  }

  lemma {:induction false} QueryTextPlaceholders(n: nat)
    ensures Occurrences(QueryText(n), '?') == 3 * n
  {
    if n == 0 {
      NoPlaceholder(SelectPrefix, |SelectPrefix|);
      assert SelectPrefix[..|SelectPrefix|] == SelectPrefix;
    } else {
      QueryTextPlaceholders(n - 1);
      var sep := if n > 1 then Conjunction else "";
      OccurrencesConcat(QueryText(n - 1), sep, '?');
      OccurrencesConcat(QueryText(n - 1) + sep, KeywordClause, '?');
      if n > 1 {
        NoPlaceholder(Conjunction, |Conjunction|);
        assert Conjunction[..|Conjunction|] == Conjunction;
      }
      KeywordClausePlaceholders();
    }
  }

  lemma KeywordClausePlaceholders()
    ensures Occurrences(KeywordClause, '?') == 3
  {
    var a, b, c, d := "(extractedText LIKE ", " OR fileName LIKE ", " OR folderPath LIKE ", ")";
    NoPlaceholder(a, |a|);
    assert a[..|a|] == a;
    NoPlaceholder(b, |b|);
    assert b[..|b|] == b;
    NoPlaceholder(c, |c|);
    assert c[..|c|] == c;
    assert Occurrences(d, '?') == 0 by { assert d[..0] == ""; }
    assert Occurrences("?", '?') == 1 by { assert "?"[..0] == ""; }
    OccurrencesConcat(a, "?", '?');
    OccurrencesConcat(a + "?", b, '?');
    OccurrencesConcat(a + "?" + b, "?", '?');
    OccurrencesConcat(a + "?" + b + "?", c, '?');
    OccurrencesConcat(a + "?" + b + "?" + c, "?", '?');
    OccurrencesConcat(a + "?" + b + "?" + c + "?", d, '?');
  }

  /** SQL `s LIKE '%x%'`, read as plain substring search for `x` (neither wildcards in `x` nor case folding). */
  predicate LikeInfix(s: string, pattern: string)
  {
    |pattern| >= 2 && pattern[0] == '%' && pattern[|pattern| - 1] == '%' && Contains(s, pattern[1..|pattern| - 1])
  }

  /** Clause `i` of the query holds for `r` under `args`. */
  predicate ClauseHolds(r: ImageEntity, args: seq<string>, i: nat)
    requires 3 * i + 2 < |args|
  {
    LikeInfix(r.extractedText, args[3 * i]) || LikeInfix(r.fileName, args[3 * i + 1]) || LikeInfix(r.folderPath, args[3 * i + 2])
  }

  /** The `WHERE` condition of the built query: every clause holds. */
  predicate WhereHolds(r: ImageEntity, args: seq<string>)
  {
    forall i: nat :: i < |args| / 3 ==> ClauseHolds(r, args, i)
  }

  /** A keyword occurs in the extracted text, the file name or the folder path. */
  predicate KeywordOccurs(r: ImageEntity, keyword: string)
  {
    Contains(r.extractedText, keyword) || Contains(r.fileName, keyword) || Contains(r.folderPath, keyword)
  }

  /** A record matches a keyword list when every keyword occurs in it. */
  predicate Matches(r: ImageEntity, keywords: seq<string>)
  {
    forall k :: k in keywords ==> KeywordOccurs(r, k)
  }

  /** The built query selects exactly the records in which every keyword occurs. */
  lemma QueryMeaning(r: ImageEntity, keywords: seq<string>)
    ensures WhereHolds(r, KeywordArgs(keywords)) <==> Matches(r, keywords)
  {
    var args := KeywordArgs(keywords);
    forall i: nat | i < |keywords|
      ensures ClauseHolds(r, args, i) <==> KeywordOccurs(r, keywords[i])
    {
      KeywordArgsAt(keywords, i);
    }
    if WhereHolds(r, args) {
      forall k | k in keywords ensures KeywordOccurs(r, k) {
        var i :| 0 <= i < |keywords| && keywords[i] == k;
        assert ClauseHolds(r, args, i);
      }
    }
    if Matches(r, keywords) {
      forall i: nat | i < |args| / 3 ensures ClauseHolds(r, args, i) {
        assert keywords[i] in keywords;
      }
    }
  }

  /** The keys of the rows a store query with these arguments returns. */
  function Selected(rows: ImageRows, args: seq<string>): (r: set<string>)
    ensures forall k :: k in r <==> k in rows && WhereHolds(rows[k], args)
  {
    set k | k in rows && WhereHolds(rows[k], args)
  }

  /** The keys of the records matching `keywords`. */
  function Results(rows: ImageRows, keywords: seq<string>): (r: set<string>)
    ensures forall k :: k in r <==> k in rows && Matches(rows[k], keywords)
  {
    set k | k in rows && Matches(rows[k], keywords)
  }

  /** What a search for `query` returns: nothing for a blank query, otherwise the rows its query selects. */
  function SearchResults(query: string, rows: ImageRows): set<string>
  {
    if IsBlank(query) || Keywords(query) == [] then {} else Selected(rows, KeywordArgs(Keywords(query)))
  }

  /** The query built for `keywords` selects exactly the records matching them. */
  lemma SelectedIsResults(rows: ImageRows, keywords: seq<string>)
    ensures Selected(rows, KeywordArgs(keywords)) == Results(rows, keywords)
  {
    forall k | k in rows ensures WhereHolds(rows[k], KeywordArgs(keywords)) <==> Matches(rows[k], keywords) {
      QueryMeaning(rows[k], keywords);
    }
  }

  /**
   * A search returns nothing for a blank query and otherwise exactly the records in which every
   * keyword of the query occurs in the extracted text, the file name or the folder path.
   */
  lemma SearchMeaning(query: string, rows: ImageRows)
    ensures IsBlank(query) ==> SearchResults(query, rows) == {}
    ensures !IsBlank(query) ==> SearchResults(query, rows) == Results(rows, Keywords(query))
  {
    if !IsBlank(query) {
      NonBlankQueryHasKeywords(query);
      SelectedIsResults(rows, Keywords(query));
    }
  }

  /** Adding a keyword never enlarges the result. */
  lemma MoreKeywordsNarrow(rows: ImageRows, keywords: seq<string>, extra: string)
    ensures Results(rows, keywords + [extra]) <= Results(rows, keywords)
  {
    forall k | k in Results(rows, keywords + [extra]) ensures k in Results(rows, keywords) {
      forall w | w in keywords ensures KeywordOccurs(rows[k], w) {
        assert w in keywords + [extra];
      }
    }
  }

  /** Only the set of keywords matters: reordering or repeating keywords does not change the result. */
  lemma KeywordOrderIrrelevant(rows: ImageRows, k1: seq<string>, k2: seq<string>)
    requires forall w :: w in k1 <==> w in k2
    ensures Results(rows, k1) == Results(rows, k2)
  {
  }

  // ---------------------------------------------------------------------------------------
  // Cleanup entry point

  class PicFinderRepository {
    const imageDao: ImageDao

    constructor (imageDao: ImageDao)
      ensures this.imageDao == imageDao
    {
      this.imageDao := imageDao;
    }

    /** `cleanupNonExistentImages`: keep exactly the records whose paths are listed. */
    method CleanupNonExistentImages(existingPaths: seq<string>)
      requires imageDao.Valid()
      modifies imageDao
      ensures imageDao.Valid()
      ensures forall k :: k in imageDao.rows <==> k in old(imageDao.rows) && k in existingPaths
      ensures forall k :: k in imageDao.rows ==> imageDao.rows[k] == old(imageDao.rows)[k]
    {
      imageDao.DeleteNonExistentImages(existingPaths);
    }
  }
}
