/** The context booster of the retrieval pipeline: a query is put in one of
    six technical categories by literal keyword search, and the retrieved
    documents are reordered so that those mentioning the category's scoring
    keywords come first, the order being otherwise kept. */
module ContextBooster {
  import opened Common

  /** A retrieved document: its text and where it came from. */
  datatype Doc = Doc(content: string, source: string)

  const General: string := "general"

  /** The category rules, in the order they are tried. Every pattern is a
      plain literal, so a regular-expression search for it is substring
      search. */
  const Rules: seq<(string, seq<string>)> := [
    ("windows", ["cmd", "powershell", "event viewer", "win", "windows",
                 "gpupdate", "registry", "dll", "task manager"]),
    ("linux", ["systemctl", "sudo", "apt", "yum", "journalctl",
               "chmod", "chown", "linux", "ubuntu", "centos"]),
    ("networking", ["ipconfig", "ifconfig", "wifi", "dns", "dhcp",
                    "gateway", "router", "internet", "ping", "tracert"]),
    ("active_directory", ["ad", "domain", "gpo", "ou", "ldap",
                          "group policy", "dc", "forest"]),
    ("hardware", ["cpu", "gpu", "ram", "ssd", "hdd",
                  "temperature", "overheating", "fan"]),
    ("devices", ["printer", "usb", "keyboard", "mouse",
                 "driver", "display", "monitor"])
  ]

  /** `Rules` is a dictionary literal: its category names are distinct and
      none of them is "general". */
  lemma RuleNamesDistinct()
    ensures forall i, j :: 0 <= i < j < |Rules| ==> Rules[i].0 != Rules[j].0
    ensures forall i :: 0 <= i < |Rules| ==> Rules[i].0 != General
  {
  }

  /** Some pattern of rule `k` occurs in the (lower-cased) query. */
  predicate RuleMatches(q: string, k: nat)
    requires k < |Rules|
  {
    exists j :: 0 <= j < |Rules[k].1| && Contains(q, Rules[k].1[j])
  }

  /** The category the rules from `k` on give: the name of one of those
      rules, or "general". */
  function CategoryFrom(q: string, k: nat): (c: string)
    ensures c == General || exists j :: k <= j < |Rules| && c == Rules[j].0
    requires k <= |Rules|
    decreases |Rules| - k
  {
    if k == |Rules| then General
    else if RuleMatches(q, k) then Rules[k].0
    else CategoryFrom(q, k + 1)
  }

  /** The category of a query: the first rule, in order, with a pattern in
      the lower-cased query, or "general". */
  function CategoryOf(query: string): (c: string)
    ensures c == General || exists k :: 0 <= k < |Rules| && c == Rules[k].0
  {
    CategoryFrom(AsciiLower(query), 0)
  }

  /** Rule `k` is the first rule that matches. */
  ghost predicate FirstMatch(q: string, k: int) {
    0 <= k < |Rules| && RuleMatches(q, k) && forall j :: 0 <= j < k ==> !RuleMatches(q, j)
  }

  lemma {:induction false} CategoryFromSpec(q: string, k: nat)
    requires k <= |Rules|
    requires forall j :: 0 <= j < k ==> !RuleMatches(q, j)
    ensures CategoryFrom(q, k) == General <==> forall j :: k <= j < |Rules| ==> !RuleMatches(q, j)
    ensures CategoryFrom(q, k) != General ==>
              exists j :: FirstMatch(q, j) && CategoryFrom(q, k) == Rules[j].0
    decreases |Rules| - k
  {
    assert forall j :: 0 <= j < |Rules| ==> Rules[j].0 != General;
    if k < |Rules| {
      if RuleMatches(q, k) {
        assert FirstMatch(q, k);
      } else {
        CategoryFromSpec(q, k + 1);
      }
    }
  }

  /** What the category is: one of the six rule names or "general";
      "general" exactly when no pattern occurs in the lower-cased query;
      otherwise the name of the first rule, in order, that has a pattern
      there. */
  lemma CategoryOfSpec(query: string)
    ensures CategoryOf(query) == General <==> forall k :: 0 <= k < |Rules| ==> !RuleMatches(AsciiLower(query), k)
    ensures CategoryOf(query) != General ==>
              exists k :: FirstMatch(AsciiLower(query), k) && CategoryOf(query) == Rules[k].0
  {
    CategoryFromSpec(AsciiLower(query), 0);
  }

  /** Rule order decides between categories: a query with both a Windows
      and a Linux pattern is a Windows query. */
  lemma WindowsBeforeLinux()
    ensures CategoryOf("sudo win") == "windows"
  {
    var q := AsciiLower("sudo win");
    assert q == "sudo win";
    assert OccursAt(q, "win", 5);
    assert Rules[0].1[3] == "win";
    assert RuleMatches(q, 0);
  }

  /** `detect_category`: the rules are tried in order, each pattern in turn,
      and the first hit decides. */
  method DetectCategory(query: string) returns (category: string)
    ensures category == CategoryOf(query)
    ensures category == General || exists k :: 0 <= k < |Rules| && category == Rules[k].0
    ensures category == General <==> forall k :: 0 <= k < |Rules| ==> !RuleMatches(AsciiLower(query), k)
  {
    category := FirstRule(AsciiLower(query));
    CategoryOfSpec(query);
  }

  /** The outer loop of `detect_category`, over the rules in order. */
  method FirstRule(q: string) returns (category: string)
    ensures category == CategoryFrom(q, 0)
  {
    var k := 0;
    while k < |Rules|
      invariant 0 <= k <= |Rules|
      invariant CategoryFrom(q, k) == CategoryFrom(q, 0)
    {
      var hit := MatchRule(q, k);
      if hit {
        return Rules[k].0;
      }
      k := k + 1;
    }
    return General;
  }

  /** The inner loop of `detect_category`: whether some pattern of rule `k`
      occurs in the lower-cased query. */
  method MatchRule(q: string, k: nat) returns (hit: bool)
    requires k < |Rules|
    ensures hit == RuleMatches(q, k)
  {
    var patterns := Rules[k].1;
    var j := 0;
    while j < |patterns|
      invariant 0 <= j <= |patterns|
      invariant forall i :: 0 <= i < j ==> !Contains(q, patterns[i])
    {
      if Contains(q, patterns[j]) {
        return true;
      }
      j := j + 1;
    }
    return false;
  }


  /** The keywords whose presence in a document's lower-cased content earns
      it points, per category. */
  function ScoringKeywords(category: string): seq<string> {
    if category == "windows" then ["windows"]
    else if category == "linux" then ["linux"]
    else if category == "networking" then ["windows", "dns", "ip", "wifi"]
    else if category == "active_directory" then ["domain", "ad", "gpo"]
    else if category == "hardware" then ["cpu", "gpu", "temp"]
    else if category == "devices" then ["printer", "usb"]
    else []
  }

  /** The score `boost` gives a document's lower-cased content: 3 for each
      of the six tests that applies. At most the two networking tests can
      apply together, so a score is 0 or 3, or 6 for a networking query. */
  function Score(category: string, content: string): (s: nat)
    ensures s == 0 || s == 3 || (s == 6 && category == "networking")
  {
    (if (category == "windows" || category == "networking") && Contains(content, "windows") then 3 else 0)
    + (if category == "linux" && Contains(content, "linux") then 3 else 0)
    + (if category == "networking"
          && (Contains(content, "dns") || Contains(content, "ip") || Contains(content, "wifi")) then 3 else 0)
    + (if category == "active_directory"
          && (Contains(content, "domain") || Contains(content, "ad") || Contains(content, "gpo")) then 3 else 0)
    + (if category == "hardware"
          && (Contains(content, "cpu") || Contains(content, "gpu") || Contains(content, "temp")) then 3 else 0)
    + (if category == "devices" && (Contains(content, "printer") || Contains(content, "usb")) then 3 else 0)
  }

  /** A document scores nothing exactly when its content contains none of
      the category's scoring keywords; a "general" query scores every
      document 0. */
  lemma ScoreZeroIffNoKeyword(category: string, content: string)
    ensures Score(category, content) == 0 <==>
              forall k :: 0 <= k < |ScoringKeywords(category)| ==> !Contains(content, ScoringKeywords(category)[k])
    ensures category == General ==> Score(category, content) == 0
  {
    var ks := ScoringKeywords(category);
    if category == "networking" {
      assert ks == ["windows", "dns", "ip", "wifi"];
      assert Score(category, content) == 0 <==>
               !Contains(content, ks[0]) && !Contains(content, ks[1]) && !Contains(content, ks[2]) && !Contains(content, ks[3]);
    } else if category == "active_directory" || category == "hardware" {
      assert Score(category, content) == 0 <==>
               !Contains(content, ks[0]) && !Contains(content, ks[1]) && !Contains(content, ks[2]);
    } else if category == "devices" {
      assert Score(category, content) == 0 <==> !Contains(content, ks[0]) && !Contains(content, ks[1]);
    }
  }

  function DocScore(category: string, d: Doc): nat {
    Score(category, AsciiLower(d.content))
  }

  /** The `(score, doc)` pairs `boost` collects, in document order. */
  function Scored(category: string, docs: seq<Doc>): (r: seq<(nat, Doc)>)
    ensures |r| == |docs|
    ensures forall i :: 0 <= i < |docs| ==> r[i] == (DocScore(category, docs[i]), docs[i])
  {
    seq(|docs|, i requires 0 <= i < |docs| => (DocScore(category, docs[i]), docs[i]))
  }

  /** Non-increasing by score. */
  ghost predicate SortedDesc(s: seq<(nat, Doc)>) {
    forall i, j :: 0 <= i < j < |s| ==> s[i].0 >= s[j].0
  }

  /** Puts `x` in front of the first element whose score is not above its
      own. */
  function Insert(x: (nat, Doc), t: seq<(nat, Doc)>): (r: seq<(nat, Doc)>)
    ensures |r| == |t| + 1
    ensures multiset(r) == multiset(t) + multiset{x}
  {
    if t == [] || x.0 >= t[0].0 then [x] + t
    else
      assert t == [t[0]] + t[1..];
      [t[0]] + Insert(x, t[1..])
  }

  /** Every score in `t` is at most `v`. */
  ghost predicate Bounded(t: seq<(nat, Doc)>, v: nat) {
    forall i :: 0 <= i < |t| ==> t[i].0 <= v
  }

  lemma {:induction false} InsertBounded(x: (nat, Doc), t: seq<(nat, Doc)>, v: nat)
    requires Bounded(t, v) && x.0 <= v
    ensures Bounded(Insert(x, t), v)
  {
    if t != [] && x.0 < t[0].0 {
      InsertBounded(x, t[1..], v);
    }
  }

  lemma {:induction false} InsertSorted(x: (nat, Doc), t: seq<(nat, Doc)>)
    requires SortedDesc(t)
    ensures SortedDesc(Insert(x, t))
  {
    if t != [] && x.0 < t[0].0 {
      var rest := Insert(x, t[1..]);
      InsertSorted(x, t[1..]);
      InsertBounded(x, t[1..], t[0].0);
      var r := [t[0]] + rest;
      assert forall j :: 1 <= j < |r| ==> r[j] == rest[j - 1];
    }
  }

  /** `boosted.sort(key=lambda x: x[0], reverse=True)`: a stable sort by
      descending score (stability Python guarantees also with `reverse`). */
  function SortByScore(s: seq<(nat, Doc)>): (r: seq<(nat, Doc)>)
    ensures |r| == |s|
    ensures multiset(r) == multiset(s)
  {
    if s == [] then [] else
      assert s == [s[0]] + s[1..];
      Insert(s[0], SortByScore(s[1..]))
  }

  lemma {:induction false} SortSorted(s: seq<(nat, Doc)>)
    ensures SortedDesc(SortByScore(s))
  {
    if s != [] {
      SortSorted(s[1..]);
      InsertSorted(s[0], SortByScore(s[1..]));
    }
  }

  /** The pairs with score `v`, in order. */
  function WithKey(s: seq<(nat, Doc)>, v: nat): seq<(nat, Doc)> {
    if s == [] then [] else (if s[0].0 == v then [s[0]] else []) + WithKey(s[1..], v)
  }

  /** `x` goes before every pair of equal score. */
  lemma {:induction false} InsertStable(x: (nat, Doc), t: seq<(nat, Doc)>, v: nat)
    ensures WithKey(Insert(x, t), v) == (if x.0 == v then [x] else []) + WithKey(t, v)
  {
    if t == [] || x.0 >= t[0].0 {
      if t != [] && x.0 != v && t[0].0 == v {
        assert x.0 > v;
      }
      assert ([x] + t)[1..] == t;
    } else {
      var rest := Insert(x, t[1..]);
      InsertStable(x, t[1..], v);
      assert ([t[0]] + rest)[1..] == rest;
    }
  }

  /** Sorting keeps the order among pairs of equal score. */
  lemma {:induction false} SortStable(s: seq<(nat, Doc)>, v: nat)
    ensures WithKey(SortByScore(s), v) == WithKey(s, v)
  {
    if s != [] {
      SortStable(s[1..], v);
      InsertStable(s[0], SortByScore(s[1..]), v);
    }
  }

  /** Sorting pairs that all have the same score changes nothing. */
  lemma {:induction false} SortEqualKeys(s: seq<(nat, Doc)>, v: nat)
    requires forall i :: 0 <= i < |s| ==> s[i].0 == v
    ensures SortByScore(s) == s
  {
    if s != [] {
      SortEqualKeys(s[1..], v);
      assert s == [s[0]] + s[1..];
    }
  }

  /** `[d for _, d in boosted]`. */
  function Docs(s: seq<(nat, Doc)>): (r: seq<Doc>)
    ensures |r| == |s|
    ensures forall i :: 0 <= i < |s| ==> r[i] == s[i].1
  {
    seq(|s|, i requires 0 <= i < |s| => s[i].1)
  }

  lemma DocsOfInsert(x: (nat, Doc), t: seq<(nat, Doc)>)
    ensures multiset(Docs(Insert(x, t))) == multiset(Docs(t)) + multiset{x.1}
  {
    var k := InsertPos(x, t);
    DocsOfSplice(t, k, x);
    SpliceMultiset(Docs(t), k, x.1);
  }

  /** Where `Insert` puts the new pair: behind the leading pairs of higher
      score, the rest unchanged. */
  function InsertPos(x: (nat, Doc), t: seq<(nat, Doc)>): (k: nat)
    ensures k <= |t| && Insert(x, t) == t[..k] + [x] + t[k..]
  {
    if t == [] || x.0 >= t[0].0 then 0
    else
      var rest := t[1..];
      var k := InsertPos(x, rest);
      InsertBehind(x, t);
      SpliceCons(t[0], rest, k, x);
      k + 1
  }

  /** A pair of lower score than the first goes in behind it. */
  lemma InsertBehind(x: (nat, Doc), t: seq<(nat, Doc)>)
    requires t != [] && x.0 < t[0].0
    ensures Insert(x, t) == [t[0]] + Insert(x, t[1..])
    ensures t == [t[0]] + t[1..]
  {
  }

  /** Splicing behind a first element is splicing one place further on. */
  lemma SpliceCons<T>(a: T, r: seq<T>, k: nat, y: T)
    requires k <= |r|
    ensures [a] + (r[..k] + [y] + r[k..]) == ([a] + r)[..k + 1] + [y] + ([a] + r)[k + 1..]
  {
    assert ([a] + r)[..k + 1] == [a] + r[..k];
    assert ([a] + r)[k + 1..] == r[k..];
  }

  /** The documents of a spliced list are the spliced documents. */
  lemma DocsOfSplice(t: seq<(nat, Doc)>, k: nat, x: (nat, Doc))
    requires k <= |t|
    ensures Docs(t[..k] + [x] + t[k..]) == Docs(t)[..k] + [x.1] + Docs(t)[k..]
  {
    var l := t[..k] + [x] + t[k..];
    var d := Docs(t);
    var spliced := d[..k] + [x.1] + d[k..];
    forall i | 0 <= i < |l| ensures Docs(l)[i] == spliced[i] {
      if i < k {
        assert l[i] == t[i] && spliced[i] == d[i];
      } else if i > k {
        assert l[i] == t[i - 1] && spliced[i] == d[i - 1];
      }
    }
  }

  /** Splicing an element in adds it to the multiset. */
  lemma SpliceMultiset<T>(d: seq<T>, k: nat, y: T)
    requires k <= |d|
    ensures multiset(d[..k] + [y] + d[k..]) == multiset(d) + multiset{y}
  {
    assert d == d[..k] + d[k..];
  }

  lemma {:induction false} DocsOfSort(s: seq<(nat, Doc)>)
    ensures multiset(Docs(SortByScore(s))) == multiset(Docs(s))
  {
    if s != [] {
      var sorted := SortByScore(s[1..]);
      DocsOfSort(s[1..]);
      DocsOfInsert(s[0], sorted);
      assert SortByScore(s) == Insert(s[0], sorted);
      DocsFront(s);
    }
  }

  /** The documents of a list are its first document and those of the
      rest. */
  lemma DocsFront(s: seq<(nat, Doc)>)
    requires s != []
    ensures multiset(Docs(s)) == multiset(Docs(s[1..])) + multiset{s[0].1}
  {
    assert Docs(s) == [s[0].1] + Docs(s[1..]);
  }

  /** The documents with score `v` in category `category`, in order. */
  function WithScore(docs: seq<Doc>, category: string, v: nat): seq<Doc> {
    if docs == [] then []
    else (if DocScore(category, docs[0]) == v then [docs[0]] else []) + WithScore(docs[1..], category, v)
  }

  /** Every pair carries its document's score. */
  ghost predicate Keyed(category: string, s: seq<(nat, Doc)>) {
    forall p :: p in s ==> p.0 == DocScore(category, p.1)
  }

  lemma {:induction false} WithScoreOfDocs(category: string, s: seq<(nat, Doc)>, v: nat)
    requires Keyed(category, s)
    ensures WithScore(Docs(s), category, v) == Docs(WithKey(s, v))
  {
    if s != [] {
      assert s[0] in s;
      assert Keyed(category, s[1..]) by {
        forall p | p in s[1..] ensures p.0 == DocScore(category, p.1) {
          assert p in s;
        }
      }
      WithScoreOfDocs(category, s[1..], v);
      assert Docs(s)[1..] == Docs(s[1..]);
      if s[0].0 == v {
        assert Docs([s[0]] + WithKey(s[1..], v)) == [s[0].1] + Docs(WithKey(s[1..], v));
      } else {
        assert [] + WithKey(s[1..], v) == WithKey(s[1..], v);
      }
    }
  }

  /** `boost(query, docs)`: each document is scored for the query's
      category and the documents are stably sorted by falling score. */
  function Boosted(query: string, docs: seq<Doc>): (r: seq<Doc>)
    ensures |r| == |docs|
    ensures multiset(r) == multiset(docs)
  {
    var s := Scored(CategoryOf(query), docs);
    DocsOfSort(s);
    ScoredIsKeyed(CategoryOf(query), docs);
    Docs(SortByScore(s))
  }

  lemma ScoredIsKeyed(category: string, docs: seq<Doc>)
    ensures Keyed(category, Scored(category, docs))
    ensures Keyed(category, SortByScore(Scored(category, docs)))
    ensures Docs(Scored(category, docs)) == docs
  {
    var s := Scored(category, docs);
    forall p | p in SortByScore(s) ensures p in s {
      assert p in multiset(SortByScore(s));
    }
  }

  /** The output is ordered by non-increasing score. */
  lemma BoostedOrdered(query: string, docs: seq<Doc>)
    ensures var c := CategoryOf(query);
            var r := Boosted(query, docs);
            forall i, j :: 0 <= i < j < |r| ==> DocScore(c, r[i]) >= DocScore(c, r[j])
  {
    var c := CategoryOf(query);
    var sorted := SortByScore(Scored(c, docs));
    ScoredIsKeyed(c, docs);
    SortSorted(Scored(c, docs));
    forall i | 0 <= i < |sorted| ensures sorted[i].0 == DocScore(c, Boosted(query, docs)[i]) {
      assert sorted[i] in sorted;
    }
  }

  /** Documents of equal score keep their input order: for every score,
      the documents with that score appear in the output exactly as in the
      input. */
  lemma BoostedStable(query: string, docs: seq<Doc>, v: nat)
    ensures var c := CategoryOf(query);
            WithScore(Boosted(query, docs), c, v) == WithScore(docs, c, v)
  {
    var c := CategoryOf(query);
    var s := Scored(c, docs);
    ScoredIsKeyed(c, docs);
    WithScoreOfDocs(c, SortByScore(s), v);
    SortStable(s, v);
    WithScoreOfDocs(c, s, v);
  }

  /** A "general" query leaves the documents as they were. */
  lemma BoostedGeneralIsIdentity(query: string, docs: seq<Doc>)
    requires CategoryOf(query) == General
    ensures Boosted(query, docs) == docs
  {
    var s := Scored(General, docs);
    forall i | 0 <= i < |s| ensures s[i].0 == 0 {
      ScoreZeroIffNoKeyword(General, AsciiLower(docs[i].content));
    }
    SortEqualKeys(s, 0);
    ScoredIsKeyed(General, docs);
  }

  /** For a Windows or networking query, every document mentioning
      "windows" comes before every document matching none of the scoring
      keywords. */
  lemma BoostedWindowsFirst(query: string, docs: seq<Doc>)
    requires CategoryOf(query) == "windows" || CategoryOf(query) == "networking"
    ensures var r := Boosted(query, docs);
            forall i, j ::
              0 <= i < |r| && 0 <= j < |r| && Contains(AsciiLower(r[i].content), "windows")
              && DocScore(CategoryOf(query), r[j]) == 0
              ==> i < j
  {
    var c := CategoryOf(query);
    var r := Boosted(query, docs);
    BoostedOrdered(query, docs);
    forall i, j | 0 <= i < |r| && 0 <= j < |r| && Contains(AsciiLower(r[i].content), "windows")
                  && DocScore(c, r[j]) == 0
      ensures i < j
    {
      assert DocScore(c, r[i]) >= 3;
    }
  }

  /** `boost`: the category is detected, each document scored into a list
      of `(score, doc)` pairs, the list sorted, and the documents returned
      in the new order. */
  method Boost(query: string, docs: seq<Doc>) returns (ranked: seq<Doc>)
    ensures ranked == Boosted(query, docs)
    ensures |ranked| == |docs| && multiset(ranked) == multiset(docs)
    ensures forall i, j :: 0 <= i < j < |ranked| ==>
              DocScore(CategoryOf(query), ranked[i]) >= DocScore(CategoryOf(query), ranked[j])
    ensures forall v: nat :: WithScore(ranked, CategoryOf(query), v) == WithScore(docs, CategoryOf(query), v)
  {
    var category := DetectCategory(query);
    var boosted: seq<(nat, Doc)> := [];
    for i := 0 to |docs|
      invariant |boosted| == i
      invariant forall k :: 0 <= k < i ==> boosted[k] == (DocScore(category, docs[k]), docs[k])
    {
      var content := AsciiLower(docs[i].content);
      var score := 0;
      if (category == "windows" || category == "networking") && Contains(content, "windows") {
        score := score + 3;
      }
      if category == "linux" && Contains(content, "linux") {
        score := score + 3;
      }
      if category == "networking" && (Contains(content, "dns") || Contains(content, "ip") || Contains(content, "wifi")) {
        score := score + 3;
      }
      if category == "active_directory" && (Contains(content, "domain") || Contains(content, "ad") || Contains(content, "gpo")) {
        score := score + 3;
      }
      if category == "hardware" && (Contains(content, "cpu") || Contains(content, "gpu") || Contains(content, "temp")) {
        score := score + 3;
      }
      if category == "devices" && (Contains(content, "printer") || Contains(content, "usb")) {
        score := score + 3;
      }
      boosted := boosted + [(score, docs[i])];
    }
    assert boosted == Scored(category, docs);
    boosted := SortByScore(boosted);
    ranked := Docs(boosted);
    BoostedOrdered(query, docs);
    forall v: nat ensures WithScore(ranked, category, v) == WithScore(docs, category, v) {
      BoostedStable(query, docs, v);
    }
  }
}
