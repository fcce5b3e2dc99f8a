/**
 * `RAGService.ask_question` and `get_document_count`: pronoun-triggered query
 * expansion, the reply when nothing is found, the context and the per-file
 * sources, the history text, the per-session memory of five turns, and the
 * fallback answer when the language model fails. The vector store is the
 * `VectorStore` of module VectorStores; the language model is a parameter.
 */
module Rag {
  import opened Common
  import opened VectorStores

  /** One snippet shown to the user: the first 200 characters of a chunk and its `chunk_id`. */
  datatype Match = Match(text: string, chunkId: Option<int>)

  datatype SourceGroup = SourceGroup(filename: string, matches: seq<Match>)

  /** One remembered exchange of a session. */
  datatype Turn = Turn(question: string, answer: string, sources: seq<SourceGroup>)

  /** The dictionary `ask_question` returns. */
  datatype Reply = Reply(success: bool, answer: string, sources: seq<SourceGroup>, relevantChunks: nat, error: Option<string>)

  /**
   * The language model, from (question, context, history) to its response, or
   * `None` when the call raises. The prompt it is given and the date in it are
   * not modelled.
   */
  type Generator = (string, string, string) -> Option<string>

  // ---------------------------------------------------------------------------
  // Query expansion (lines 65-76)
  // ---------------------------------------------------------------------------

  const VagueIndicators: seq<string> := ["those", "they", "them", "it", "this", "that"]

  function Lower(c: char): char {
    if 'A' <= c <= 'Z' then (c as int + 32) as char else c
  }

  /** `str.lower()` on ASCII letters. */
  function ToLower(s: string): (r: string)
    ensures |r| == |s|
    ensures forall i :: 0 <= i < |s| ==> r[i] == Lower(s[i])
  {
    seq(|s|, i requires 0 <= i < |s| => Lower(s[i]))
  }

  /** Python's `sub in s`: `sub` occurs somewhere in `s`. */
  predicate Contains(s: string, sub: string)
    decreases |s|
  {
    |sub| <= |s| && (s[..|sub|] == sub || Contains(s[1..], sub))
  }

  /** `sub` occurs in `s` at offset `i`. */
  predicate OccursAt(s: string, sub: string, i: nat) {
    i + |sub| <= |s| && s[i..i + |sub|] == sub
  }

  /** `Contains` holds exactly when `sub` occurs at some offset of `s`. */
  lemma {:induction false} ContainsIff(s: string, sub: string)
    ensures Contains(s, sub) <==> exists i: nat :: OccursAt(s, sub, i)
  {
    if |sub| <= |s| && s[..|sub|] != sub {
      ContainsIff(s[1..], sub);
      if exists i: nat :: OccursAt(s, sub, i) {
        var i: nat :| OccursAt(s, sub, i);
        assert i > 0 && s[1..][i - 1..i - 1 + |sub|] == sub;
        assert OccursAt(s[1..], sub, i - 1);
      }
      if Contains(s[1..], sub) {
        var j: nat :| OccursAt(s[1..], sub, j);
        assert s[j + 1..j + 1 + |sub|] == sub;
        assert OccursAt(s, sub, j + 1);
      }
    } else if |sub| <= |s| {
      assert OccursAt(s, sub, 0);
    } else {
      assert forall i: nat :: !OccursAt(s, sub, i);
    }
  }

  lemma ContainsAt(s: string, sub: string, i: nat)
    requires OccursAt(s, sub, i)
    ensures Contains(s, sub)
  {
    ContainsIff(s, sub);
  }

  /** Some indicator occurs, as a substring, in the lower-cased question. */
  predicate IsVague(question: string) {
    exists i :: 0 <= i < |VagueIndicators| && Contains(ToLower(question), VagueIndicators[i])
  }

  /** Expansion applies: a vague question in a session with at least one remembered turn. */
  predicate Expands(question: string, conversations: map<string, seq<Turn>>, sid: string) {
    IsVague(question) && sid in conversations && conversations[sid] != []
  }

  /**
   * The query handed to the vector store: the question itself, or the session's last
   * question, a space, and the question when expansion applies.
   */
  function SearchQuery(question: string, conversations: map<string, seq<Turn>>, sid: string): (q: string)
    ensures |q| >= |question| && q[|q| - |question|..] == question
    ensures q == question <==> !Expands(question, conversations, sid)
    ensures q != question ==>
      var turns := conversations[sid];
      q == turns[|turns| - 1].question + " " + question
  {
    if Expands(question, conversations, sid) then
      var turns := conversations[sid];
      turns[|turns| - 1].question + " " + question
    else
      question
  }

  /** A follow-up that says "those" is searched together with the previous question. */
  lemma FollowUpExpands(answer: string)
    ensures var conversations := map["default" := [Turn("How many days of leave?", answer, [])]];
      SearchQuery("What about those days?", conversations, "default") == "How many days of leave?" + " " + "What about those days?"
  {
    var conversations := map["default" := [Turn("How many days of leave?", answer, [])]];
    FollowUpIsVague();
    assert Expands("What about those days?", conversations, "default");
  }

  lemma FollowUpIsVague()
    ensures IsVague("What about those days?")
  {
    var lowered := ToLower("What about those days?");
    assert lowered[11..16] == "those";
    ContainsAt(lowered, "those", 11);
    assert VagueIndicators[0] == "those";
  }

  /** The test is on substrings, not words: "with" contains "it". */
  lemma SubstringTrigger()
    ensures IsVague("Is leave granted with pay?")
  {
    var lowered := ToLower("Is leave granted with pay?");
    assert lowered[18..20] == "it";
    ContainsAt(lowered, "it", 18);
    assert VagueIndicators[3] == "it";
  }

  /** Without a remembered turn the question is searched as asked. */
  lemma NoHistoryNoExpansion(question: string, conversations: map<string, seq<Turn>>, sid: string)
    requires sid !in conversations || conversations[sid] == []
    ensures SearchQuery(question, conversations, sid) == question
  {
  }

  // ---------------------------------------------------------------------------
  // Context and sources (lines 90-120)
  // ---------------------------------------------------------------------------

  const Separator: string := "\n\n"

  /** `sep.join(parts)`. */
  function Join(parts: seq<string>, sep: string): string {
    if parts == [] then ""
    else if |parts| == 1 then parts[0]
    else parts[0] + sep + Join(parts[1..], sep)
  }

  /** Every part occurs in the joined string. */
  lemma {:induction false} JoinContains(parts: seq<string>, sep: string, i: nat)
    requires i < |parts|
    ensures Contains(Join(parts, sep), parts[i])
  {
    var joined := Join(parts, sep);
    if |parts| == 1 {
      ContainsAt(joined, parts[0], 0);
    } else if i == 0 {
      assert joined[..|parts[0]|] == parts[0];
      ContainsAt(joined, parts[0], 0);
    } else {
      var rest := Join(parts[1..], sep);
      JoinContains(parts[1..], sep, i - 1);
      ContainsIff(rest, parts[i]);
      var j: nat :| OccursAt(rest, parts[i], j);
      var offset := |parts[0] + sep|;
      assert joined == parts[0] + sep + rest;
      assert joined[offset + j..offset + j + |parts[i]|] == rest[j..j + |parts[i]|];
      ContainsAt(joined, parts[i], offset + j);
    }
  }

  function ResultTexts(results: seq<SearchResult>): seq<string> {
    seq(|results|, i requires 0 <= i < |results| => results[i].document.text)
  }

  /** The context given to the model: the result texts, in result order, separated by blank lines. */
  function Context(results: seq<SearchResult>): string {
    Join(ResultTexts(results), Separator)
  }

  /** Every retrieved chunk's text reaches the model. */
  lemma ContextHasEveryResult(results: seq<SearchResult>, i: nat)
    requires i < |results|
    ensures Contains(Context(results), results[i].document.text)
  {
    JoinContains(ResultTexts(results), Separator, i);
  }

  /** `document.get("filename", "Unknown")`. */
  function FileOf(r: SearchResult): string {
    r.document.filename.GetOr("Unknown")
  }

  function Files(results: seq<SearchResult>): (fs: seq<string>)
    ensures |fs| == |results|
    ensures forall i :: 0 <= i < |results| ==> fs[i] == FileOf(results[i])
  {
    seq(|results|, i requires 0 <= i < |results| => FileOf(results[i]))
  }

  /** `text[:200] + "..."`. */
  function Snippet(text: string): (r: string)
    ensures |r| == Min(|text|, 200) + 3
    ensures r[..|r| - 3] == text[..|r| - 3] && r[|r| - 3..] == "..."
  {
    Take(text, 200) + "..."
  }

  function MatchOf(r: SearchResult): Match {
    Match(Snippet(r.document.text), r.document.chunkId)
  }

  /** The first position of `x` in `names`. */
  function IndexOf(names: seq<string>, x: string): (p: nat)
    requires x in names
    ensures p < |names| && names[p] == x && x !in names[..p]
  {
    if names[0] == x then 0 else 1 + IndexOf(names[1..], x)
  }

  /** Only one position is the first position of `x`. */
  lemma IndexOfUnique(names: seq<string>, x: string, p: nat)
    requires p < |names| && names[p] == x && x !in names[..p]
    ensures IndexOf(names, x) == p
  {
  }

  /** The distinct names in order of first appearance: the key order of `sources_by_file`. */
  function FirstSeen(names: seq<string>): (r: seq<string>)
    ensures |r| <= |names|
  {
    if names == [] then []
    else
      var r := FirstSeen(names[..|names| - 1]);
      var last := names[|names| - 1];
      if last in r then r else r + [last]
  }

  /**
   * Each name once, exactly the names given, and in the order of their first
   * positions.
   */
  lemma {:induction false} FirstSeenOrder(names: seq<string>)
    ensures var r := FirstSeen(names);
      && Distinct(r)
      && (forall x :: x in r <==> x in names)
      && (forall i, j :: 0 <= i < j < |r| ==> IndexOf(names, r[i]) < IndexOf(names, r[j]))
  {
    if names != [] {
      var init := names[..|names| - 1];
      var last := names[|names| - 1];
      var r := FirstSeen(init);
      FirstSeenOrder(init);
      assert names == init + [last];
      assert forall x :: x in init ==> IndexOf(names, x) == IndexOf(init, x) by {
        forall x | x in init ensures IndexOf(names, x) == IndexOf(init, x) {
          var p := IndexOf(init, x);
          assert names[..p] == init[..p];
          IndexOfUnique(names, x, p);
        }
      }
      if last !in r {
        IndexOfUnique(names, last, |names| - 1);
      }
      var r' := FirstSeen(names);
      forall i, j | 0 <= i < j < |r'| ensures IndexOf(names, r'[i]) < IndexOf(names, r'[j]) {
        assert r'[i] == r[i] && r[i] in init;
        if j < |r| {
          assert r'[j] == r[j] && r[j] in init;
        }
      }
    }
  }

  /** All matches of one file, in result order: the `matches` list before it is cut to three. */
  function MatchesFor(results: seq<SearchResult>, name: string): (ms: seq<Match>)
    ensures |ms| <= |results|
  {
    if results == [] then []
    else
      var last := results[|results| - 1];
      var ms := MatchesFor(results[..|results| - 1], name);
      if FileOf(last) == name then ms + [MatchOf(last)] else ms
  }

  /** A file's matches are exactly the matches of the results from that file. */
  lemma {:induction false} MatchesForIff(results: seq<SearchResult>, name: string, m: Match)
    ensures m in MatchesFor(results, name) <==>
      exists i :: 0 <= i < |results| && FileOf(results[i]) == name && m == MatchOf(results[i])
  {
    if results != [] {
      var init := results[..|results| - 1];
      MatchesForIff(init, name, m);
      assert forall i :: 0 <= i < |init| ==> init[i] == results[i];
    }
  }

  lemma FilesSnoc(results: seq<SearchResult>, r: SearchResult)
    ensures Files(results + [r]) == Files(results) + [FileOf(r)]
  {
  }

  lemma FirstSeenSnoc(names: seq<string>, x: string)
    ensures FirstSeen(names + [x]) == if x in FirstSeen(names) then FirstSeen(names) else FirstSeen(names) + [x]
  {
    assert (names + [x])[..|names|] == names;
  }

  lemma MatchesForSnoc(results: seq<SearchResult>, r: SearchResult, name: string)
    ensures MatchesFor(results + [r], name) == MatchesFor(results, name) + if FileOf(r) == name then [MatchOf(r)] else []
  {
    assert (results + [r])[..|results|] == results;
  }

  /** `sources_by_file` after grouping `results`: a new file opens an empty group, then its match is appended. */
  function GroupsOf(results: seq<SearchResult>): (g: map<string, seq<Match>>)
  {
    if results == [] then map[]
    else
      var g := GroupsOf(results[..|results| - 1]);
      var last := results[|results| - 1];
      var f := FileOf(last);
      g[f := (if f in g then g[f] else []) + [MatchOf(last)]]
  }

  /** The groups hold exactly the files of the results, each with all of its matches. */
  lemma {:induction false} GroupsOfMatches(results: seq<SearchResult>, name: string)
    ensures name in GroupsOf(results) <==> name in Files(results)
    ensures name in GroupsOf(results) ==> GroupsOf(results)[name] == MatchesFor(results, name)
    ensures name !in GroupsOf(results) ==> MatchesFor(results, name) == []
  {
    if results != [] {
      var init := results[..|results| - 1];
      var last := results[|results| - 1];
      GroupsOfMatches(init, name);
      assert results == init + [last];
      FilesSnoc(init, last);
      MatchesForSnoc(init, last, name);
    }
  }

  /** One step of the grouping loop: the next result's file is new exactly when it has no group yet. */
  lemma GroupStep(results: seq<SearchResult>, i: nat)
    requires i < |results|
    ensures var f := FileOf(results[i]);
      var order := FirstSeen(Files(results[..i]));
      var groups := GroupsOf(results[..i]);
      && (f in groups <==> f in order)
      && FirstSeen(Files(results[..i + 1])) == (if f in order then order else order + [f])
      && GroupsOf(results[..i + 1]) == groups[f := (if f in groups then groups[f] else []) + [MatchOf(results[i])]]
  {
    var prefix := results[..i];
    var result := results[i];
    assert results[..i + 1] == prefix + [result];
    assert results[..i + 1][..i] == prefix;
    FilesSnoc(prefix, result);
    FirstSeenSnoc(Files(prefix), FileOf(result));
    FirstSeenOrder(Files(prefix));
    GroupsOfMatches(prefix, FileOf(result));
  }

  /** One step of the grouping loop on the context parts. */
  lemma TextsStep(results: seq<SearchResult>, i: nat)
    requires i < |results|
    ensures ResultTexts(results[..i + 1]) == ResultTexts(results[..i]) + [results[i].document.text]
  {
    assert ResultTexts(results[..i + 1])[..i] == ResultTexts(results[..i]);
  }

  /** The `sources` list: one group per file in first-seen order, each with its first three matches. */
  function Sources(results: seq<SearchResult>): seq<SourceGroup> {
    var names := FirstSeen(Files(results));
    seq(|names|, i requires 0 <= i < |names| => SourceGroup(names[i], Take(MatchesFor(results, names[i]), 3)))
  }

  /**
   * What a user sees of the sources: no file twice, exactly the files of the results,
   * and each group holding one to three matches.
   */
  lemma SourcesShape(results: seq<SearchResult>)
    ensures var r := Sources(results);
      && (forall i, j :: 0 <= i < j < |r| ==> r[i].filename != r[j].filename)
      && (forall i :: 0 <= i < |r| ==> r[i].filename in Files(results))
      && (forall name :: name in Files(results) ==> exists i :: 0 <= i < |r| && r[i].filename == name)
      && (forall i :: 0 <= i < |r| ==> 1 <= |r[i].matches| <= 3)
  {
    var r := Sources(results);
    var names := FirstSeen(Files(results));
    var fs := Files(results);
    FirstSeenOrder(fs);
    forall name | name in fs
      ensures exists i :: 0 <= i < |r| && r[i].filename == name
    {
      assert name in names;
      var i :| 0 <= i < |names| && names[i] == name;
      assert r[i].filename == name;
    }
    forall i | 0 <= i < |r| ensures 1 <= |r[i].matches| <= 3 {
      assert names[i] in names;
      var j :| 0 <= j < |fs| && fs[j] == names[i];
      MatchesForIff(results, names[i], MatchOf(results[j]));
    }
  }

  /** Every match shown under a file comes from a result of that file. */
  lemma SourceMatchesBelong(results: seq<SearchResult>, i: nat, m: Match)
    requires i < |Sources(results)| && m in Sources(results)[i].matches
    ensures exists j :: 0 <= j < |results| && FileOf(results[j]) == Sources(results)[i].filename && m == MatchOf(results[j])
  {
    var g := Sources(results)[i];
    var all := MatchesFor(results, g.filename);
    assert g.matches == all[..|g.matches|];
    assert m in all;
    MatchesForIff(results, g.filename, m);
  }

  // ---------------------------------------------------------------------------
  // History text and memory (lines 122-144)
  // ---------------------------------------------------------------------------

  /** One remembered exchange in the prompt, with the answer cut to 150 characters. */
  function FormatTurn(t: Turn): string {
    "Previous Question: " + t.question + "\nPrevious Answer: " + Take(t.answer, 150) + "...\n\n"
  }

  function Concat(parts: seq<string>): string {
    if parts == [] then "" else parts[0] + Concat(parts[1..])
  }

  function FormatTurns(turns: seq<Turn>): (r: seq<string>)
    ensures |r| == |turns|
    ensures forall i :: 0 <= i < |turns| ==> r[i] == FormatTurn(turns[i])
  {
    seq(|turns|, i requires 0 <= i < |turns| => FormatTurn(turns[i]))
  }

  /** The `history_text` of a session: its last two turns, oldest first, or nothing. */
  function HistoryText(conversations: map<string, seq<Turn>>, sid: string): string {
    if sid in conversations then Concat(FormatTurns(LastN(conversations[sid], 2))) else ""
  }

  /** The history is exactly the formatted last one or two turns. */
  lemma HistoryLastTwo(conversations: map<string, seq<Turn>>, sid: string)
    ensures sid !in conversations || conversations[sid] == [] ==> HistoryText(conversations, sid) == ""
    ensures sid in conversations && |conversations[sid]| == 1 ==>
      HistoryText(conversations, sid) == FormatTurn(conversations[sid][0])
    ensures sid in conversations && |conversations[sid]| >= 2 ==>
      var ts := conversations[sid];
      HistoryText(conversations, sid) == FormatTurn(ts[|ts| - 2]) + FormatTurn(ts[|ts| - 1])
  {
    if sid in conversations && |conversations[sid]| >= 2 {
      var ts := conversations[sid];
      var parts := FormatTurns(LastN(ts, 2));
      assert parts[1..][1..] == [];
      assert Concat(parts[1..]) == parts[1] + "";
    } else if sid in conversations && |conversations[sid]| == 1 {
      var ts := conversations[sid];
      assert LastN(ts, 2) == ts;
      var parts := FormatTurns(ts);
      assert parts[1..] == [];
      assert Concat(parts) == parts[0] + "";
    }
  }

  /** Append the new turn, then keep only the last five. */
  function Remember(turns: seq<Turn>, t: Turn): seq<Turn> {
    var appended := turns + [t];
    if |appended| > 5 then appended[|appended| - 5..] else appended
  }

  /** The new turn comes last, after the newest of the old turns, and at most five are kept. */
  lemma RememberShape(turns: seq<Turn>, t: Turn)
    ensures var r := Remember(turns, t);
      && |r| == Min(|turns| + 1, 5)
      && r[|r| - 1] == t
      && r[..|r| - 1] == turns[|turns| + 1 - |r|..]
  {
    var r := Remember(turns, t);
    if |turns| + 1 > 5 {
      assert r[..|r| - 1] == (turns + [t])[|turns| - 4..|turns|];
    } else {
      assert r[..|r| - 1] == turns;
    }
  }

  /** The memory after a series of successful questions. */
  function Replay(turns: seq<Turn>, asked: seq<Turn>): seq<Turn>
    decreases |asked|
  {
    if asked == [] then turns else Replay(Remember(turns, asked[0]), asked[1..])
  }

  /** Dropping a prefix that leaves at least five elements, or nothing, keeps the last five. */
  lemma LastFiveOfSuffix(s: seq<Turn>, k: nat)
    requires k <= |s| && (k == 0 || |s| - k >= 5)
    ensures LastN(s[k..], 5) == LastN(s, 5)
  {
    if k > 0 {
      assert s[k..][|s| - k - 5..] == s[|s| - 5..];
    }
  }

  /** Trimming the memory to five turns loses nothing the later last five would keep. */
  lemma RememberThenLastFive(turns: seq<Turn>, t: Turn, rest: seq<Turn>)
    ensures LastN(Remember(turns, t) + rest, 5) == LastN(turns + [t] + rest, 5)
  {
    var next := Remember(turns, t);
    RememberShape(turns, t);
    var all := turns + [t] + rest;
    var k := |turns| + 1 - |next|;
    assert next == all[k..|turns| + 1];
    assert next + rest == all[k..];
    LastFiveOfSuffix(all, k);
  }

  /** After any number of questions the session holds the last five turns in order. */
  lemma {:induction false} ReplayKeepsLastFive(turns: seq<Turn>, asked: seq<Turn>)
    requires |turns| <= 5
    ensures Replay(turns, asked) == LastN(turns + asked, 5)
    decreases |asked|
  {
    if asked == [] {
      assert turns + asked == turns;
    } else {
      ReplayKeepsLastFive(Remember(turns, asked[0]), asked[1..]);
      RememberThenLastFive(turns, asked[0], asked[1..]);
      assert turns + [asked[0]] + asked[1..] == turns + asked;
    }
  }

  /** Starting from an empty session, `n` questions leave the last `min(n, 5)` of them. */
  lemma SessionMemory(asked: seq<Turn>)
    ensures var r := Replay([], asked);
      |r| == Min(|asked|, 5) && r == asked[|asked| - |r|..]
  {
    ReplayKeepsLastFive([], asked);
    assert [] + asked == asked;
  }

  // ---------------------------------------------------------------------------
  // The answer (lines 130, 163-215)
  // ---------------------------------------------------------------------------

  const FallbackPrefix: string := "Based on the HR policies, here's what I found:\n\n"

  /** The answer when the model call raises: a fixed prefix and at most 1000 characters of the context. */
  function Fallback(context: string): string {
    FallbackPrefix + Take(context, 1000)
  }

  /** `_generate_answer_with_llm`: the model's response, or the fallback when it fails. */
  function GenerateAnswer(llm: Generator, question: string, context: string, history: string): string {
    match llm(question, context, history)
    case Some(response) => response
    case None => Fallback(context)
  }

  /**
   * A response from the model is passed on as it is; when the call fails the answer is the
   * fixed prefix followed by the first 1000 characters of the context, or all of a shorter one.
   */
  lemma AnswerOrFallback(llm: Generator, question: string, context: string, history: string)
    ensures var a := GenerateAnswer(llm, question, context, history);
      && (llm(question, context, history).Some? ==> a == llm(question, context, history).value)
      && (llm(question, context, history).None? ==>
        && |a| == |FallbackPrefix| + Min(|context|, 1000)
        && a[..|FallbackPrefix|] == FallbackPrefix
        && a[|FallbackPrefix|..] == context[..|a| - |FallbackPrefix|])
  {
    var a := GenerateAnswer(llm, question, context, history);
    if llm(question, context, history).None? {
      var taken := Take(context, 1000);
      assert a == FallbackPrefix + taken;
      assert a[|FallbackPrefix|..] == taken;
    }
  }

  const NoResults: Reply := Reply(
    false,
    "I couldn't find relevant information in the documents.",
    [],
    0,
    Some("No relevant documents found"))

  // ---------------------------------------------------------------------------
  // Document count (lines 217-229)
  // ---------------------------------------------------------------------------

  /** A chunk's filename when it is present and non-empty (Python truthiness). */
  predicate Named(c: Chunk) {
    c.filename.Some? && c.filename.value != ""
  }

  /** The distinct non-empty filenames among the chunks. */
  function DocumentNames(docs: seq<Chunk>): set<string> {
    if docs == [] then {}
    else
      var last := docs[|docs| - 1];
      DocumentNames(docs[..|docs| - 1]) + (if Named(last) then {last.filename.value} else {})
  }

  /** A name is counted exactly when some chunk carries it. */
  lemma {:induction false} DocumentNamesIff(docs: seq<Chunk>, name: string)
    ensures name in DocumentNames(docs) <==> exists i :: 0 <= i < |docs| && Named(docs[i]) && docs[i].filename.value == name
  {
    if docs != [] {
      var init := docs[..|docs| - 1];
      DocumentNamesIff(init, name);
      assert forall i :: 0 <= i < |init| ==> init[i] == docs[i];
    }
  }

  /** There are never more names than chunks. */
  lemma {:induction false} NamesAtMostChunks(docs: seq<Chunk>)
    ensures |DocumentNames(docs)| <= |docs|
  {
    if docs != [] {
      NamesAtMostChunks(docs[..|docs| - 1]);
    }
  }

  /** One step of the counting loop: the next chunk adds its name, when it has one. */
  lemma NamesStep(docs: seq<Chunk>, i: nat)
    requires i < |docs|
    ensures DocumentNames(docs[..i + 1]) ==
      DocumentNames(docs[..i]) + if Named(docs[i]) then {docs[i].filename.value} else {}
  {
    assert docs[..i + 1][..i] == docs[..i];
  }

  /** Removing a file takes exactly its name out of the names counted. */
  lemma {:induction false} RemoveDropsName(docs: seq<Chunk>, f: string)
    ensures DocumentNames(FilterOut(docs, f)) == DocumentNames(docs) - {f}
  {
    if docs != [] {
      var init := docs[..|docs| - 1];
      var last := docs[|docs| - 1];
      RemoveDropsName(init, f);
      var kept := FilterOut(init, f);
      var added: set<string> := if Named(last) then {last.filename.value} else {};
      assert DocumentNames(docs) == DocumentNames(init) + added;
      if Keeps(last, f) {
        assert (kept + [last])[..|kept|] == kept;
        assert DocumentNames(FilterOut(docs, f)) == DocumentNames(kept) + added;
      } else {
        assert FilterOut(docs, f) == kept;
        assert added <= {f};
      }
    }
  }

  class RagService {
    /** `conversation_store`: the turns remembered per session id. */
    var conversations: map<string, seq<Turn>>

    constructor()
      ensures conversations == map[]
    {
      conversations := map[];
    }

    /** The loop of lines 94-107: the context parts, and the matches grouped by filename in first-seen order. */
    method GroupByFile(results: seq<SearchResult>) returns (parts: seq<string>, order: seq<string>, groups: map<string, seq<Match>>)
      ensures parts == ResultTexts(results)
      ensures order == FirstSeen(Files(results))
      ensures groups == GroupsOf(results)
    {
      parts := [];
      order := [];
      groups := map[];
      var i := 0;
      while i < |results|
        invariant 0 <= i <= |results|
        invariant parts == ResultTexts(results[..i])
        invariant order == FirstSeen(Files(results[..i]))
        invariant groups == GroupsOf(results[..i])
      {
        var result := results[i];
        GroupStep(results, i);
        TextsStep(results, i);
        parts := parts + [result.document.text];
        var filename := FileOf(result);
        var matches := if filename in groups then groups[filename] else [];
        if filename !in groups {
          order := order + [filename];
        }
        groups := groups[filename := matches + [MatchOf(result)]];
        i := i + 1;
      }
      assert results[..i] == results;
    }

    /**
     * Lines 90-120: the grouping loop, then the groups in first-seen order with at
     * most three matches each, and the context joined from the parts.
     */
    method Assemble(results: seq<SearchResult>) returns (context: string, sources: seq<SourceGroup>)
      ensures context == Context(results)
      ensures sources == Sources(results)
    {
      var parts, order, groups := GroupByFile(results);
      FirstSeenOrder(Files(results));
      sources := [];
      var j := 0;
      while j < |order|
        invariant 0 <= j <= |order|
        invariant |sources| == j
        invariant forall g :: 0 <= g < j ==> sources[g] == Sources(results)[g]
      {
        var filename := order[j];
        GroupsOfMatches(results, filename);
        sources := sources + [SourceGroup(filename, Take(groups[filename], 3))];
        j := j + 1;
      }
      assert sources == Sources(results);
      context := Join(parts, Separator);
    }

    /**
     * `ask_question` (lines 61-152): search with the possibly expanded query, then
     * answer from what the search found.
     */
    method AskQuestion(store: VectorStore, llm: Generator, question: string, k: nat, sid: string) returns (reply: Reply)
      requires store.Valid() && k > 0
      modifies this
      ensures var results := store.SearchResults(SearchQuery(question, old(conversations), sid), k);
        if results == [] then
          reply == NoResults && conversations == old(conversations)
        else
          var answer := GenerateAnswer(llm, question, Context(results), HistoryText(old(conversations), sid));
          var turn := Turn(question, answer, Sources(results));
          var before := if sid in old(conversations) then old(conversations)[sid] else [];
          && reply == Reply(true, answer, Sources(results), |results|, None)
          && conversations == old(conversations)[sid := Remember(before, turn)]
    {
      var query := SearchQuery(question, conversations, sid);
      var results := store.Search(query, k);
      reply := Respond(llm, question, results, sid);
    }

    /**
     * Lines 81-152, after the search: with no results answer `NoResults` and remember
     * nothing; otherwise answer from the context and the last two turns, and remember
     * the new turn, keeping only the last five.
     */
    method Respond(llm: Generator, question: string, results: seq<SearchResult>, sid: string) returns (reply: Reply)
      modifies this
      ensures if results == [] then
          reply == NoResults && conversations == old(conversations)
        else
          var answer := GenerateAnswer(llm, question, Context(results), HistoryText(old(conversations), sid));
          var turn := Turn(question, answer, Sources(results));
          var before := if sid in old(conversations) then old(conversations)[sid] else [];
          && reply == Reply(true, answer, Sources(results), |results|, None)
          && conversations == old(conversations)[sid := Remember(before, turn)]
    {
      if results == [] {
        return NoResults;
      }
      var context, sources := Assemble(results);
      var history := HistoryText(conversations, sid);
      var answer := GenerateAnswer(llm, question, context, history);
      var turn := Turn(question, answer, sources);
      var turns := (if sid in conversations then conversations[sid] else []) + [turn];
      if |turns| > 5 {
        turns := turns[|turns| - 5..];
      }
      conversations := conversations[sid := turns];
      reply := Reply(true, answer, sources, |results|, None);
    }

    /** `get_document_count` (lines 217-229): the number of distinct non-empty filenames. */
    method GetDocumentCount(store: VectorStore) returns (n: nat)
      ensures n == |DocumentNames(store.documents)|
      ensures n <= |store.documents|
      ensures store.documents == [] ==> n == 0
    {
      var docs := store.documents;
      if docs == [] {
        return 0;
      }
      var names: set<string> := {};
      var i := 0;
      while i < |docs|
        invariant 0 <= i <= |docs|
        invariant names == DocumentNames(docs[..i])
      {
        NamesStep(docs, i);
        var filename := docs[i].filename;
        if filename.Some? && filename.value != "" {
          names := names + {filename.value};
        }
        i := i + 1;
      }
      assert docs[..i] == docs;
      NamesAtMostChunks(docs);
      n := |names|;
    }
  }
}
