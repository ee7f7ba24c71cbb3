/** categorizeRepository in src/services/repositoryApi.js: the first category of a fixed
    table with a keyword that is one of the repository's topics or occurs in its
    lower-cased description, name or language; failing that, a category chosen by the
    language alone, or "General". */
module RepositoryCategory {
  import opened Common
  import opened Categories

  /** The fields the categoriser reads. A missing `topics` list is the empty list. */
  datatype RepoLabels = RepoLabels(name: string, language: Option<string>, description: Option<string>,
                                   topics: seq<string>)

  const WebFramework := Category("Web Framework", ["react", "vue", "angular", "express", "django", "flask", "rails"])
  const MobileDevelopment := Category("Mobile Development", ["android", "ios", "react-native", "flutter", "ionic", "xamarin"])
  const MachineLearning := Category("Machine Learning", ["ml", "ai", "tensorflow", "pytorch", "scikit-learn", "keras"])
  const DevOpsTools := Category("DevOps & Tools", ["docker", "kubernetes", "ci-cd", "deployment", "monitoring"])
  const Database := Category("Database", ["database", "sql", "mongodb", "redis", "postgresql", "mysql"])
  const GameDevelopment := Category("Game Development", ["game", "unity", "unreal", "godot", "phaser"])
  const Blockchain := Category("Blockchain", ["blockchain", "crypto", "bitcoin", "ethereum", "web3"])
  const DataScience := Category("Data Science", ["data-science", "analytics", "visualization", "jupyter"])
  const Security := Category("Security", ["security", "auth", "encryption", "cybersecurity"])
  const CliTool := Category("CLI Tool", ["cli", "command-line", "terminal", "tool"])
  const Library := Category("Library", ["library", "sdk", "api", "framework"])
  const Educational := Category("Educational", ["tutorial", "learning", "course", "example", "demo"])

  /** The categories in the order they are tried. */
  const CategoryTable: seq<Category> := [
    WebFramework, MobileDevelopment, MachineLearning, DevOpsTools, Database, GameDevelopment,
    Blockchain, DataScience, Security, CliTool, Library, Educational
  ]

  const LanguageCategories: map<string, string> := map[
    "javascript" := "Web Development", "typescript" := "Web Development",
    "python" := "Data Science", "java" := "Enterprise",
    "go" := "Systems Programming", "rust" := "Systems Programming",
    "swift" := "Mobile Development", "kotlin" := "Mobile Development",
    "c++" := "Systems Programming", "c#" := "Enterprise",
    "php" := "Web Development", "ruby" := "Web Development"
  ]

  /** `repo.language?.toLowerCase() || ''`. */
  function LanguageText(repo: RepoLabels): string
  {
    Lower(OrElse(repo.language, ""))
  }

  /** The test each keyword is put to. */
  function KeywordHit(repo: RepoLabels): string -> bool
  {
    var description := Lower(OrElse(repo.description, ""));
    var name := Lower(repo.name);
    var language := LanguageText(repo);
    k => k in repo.topics || Contains(description, k) || Contains(name, k) || Contains(language, k)
  }

  /** `languageCategories[language] || 'General'`. */
  function LanguageFallback(language: string): (r: string)
    ensures language in LanguageCategories ==> r == LanguageCategories[language]
    ensures language !in LanguageCategories ==> r == "General"
  {
    if language in LanguageCategories then LanguageCategories[language] else "General"
  }

  function CategoryOf(repo: RepoLabels): string
  {
    match FirstCategory(CategoryTable, KeywordHit(repo), 0)
    case Some(c) => CategoryTable[c].name
    case None => LanguageFallback(LanguageText(repo))
  }

  /** The table walk followed by the language fallback. */
  method CategorizeRepository(repo: RepoLabels) returns (category: string)
    ensures category == CategoryOf(repo)
  {
    var c := FindCategory(CategoryTable, KeywordHit(repo));
    if c.Some? {
      return CategoryTable[c.value].name;
    }
    return LanguageFallback(LanguageText(repo));
  }

  /** The first category, in table order, with a matching keyword is the answer. */
  lemma CategorizeFirstMatch(repo: RepoLabels, c: nat)
    requires c < |CategoryTable| && AnyHit(CategoryTable[c].keywords, KeywordHit(repo))
    requires forall d :: 0 <= d < c ==> !AnyHit(CategoryTable[d].keywords, KeywordHit(repo))
    ensures CategoryOf(repo) == CategoryTable[c].name
  {
    FirstCategoryIs(CategoryTable, KeywordHit(repo), c);
  }

  /** Without any matching keyword the language table decides, and "General" is the rest. */
  lemma CategorizeFallback(repo: RepoLabels)
    requires forall c :: 0 <= c < |CategoryTable| ==> !AnyHit(CategoryTable[c].keywords, KeywordHit(repo))
    ensures LanguageText(repo) in LanguageCategories ==> CategoryOf(repo) == LanguageCategories[LanguageText(repo)]
    ensures LanguageText(repo) !in LanguageCategories ==> CategoryOf(repo) == "General"
  {
  }

  const HtmlRepository: RepoLabels := RepoLabels("x", Some("HTML"), None, [])

  lemma HtmlRepositoryHit(k: string)
    ensures KeywordHit(HtmlRepository)(k) <==> Contains("x", k) || Contains("html", k) || Contains("", k)
  {
    assert LanguageText(HtmlRepository) == "html";
    assert Lower("x") == "x";
  }

  /** A keyword of two or more characters misses the repository when it is longer than
      "html" or starts with a letter "html" does not have. */
  lemma HtmlRepositoryMiss(k: string)
    requires |k| >= 2 && (|k| > 4 || k[0] !in "html")
    ensures !KeywordHit(HtmlRepository)(k)
  {
    HtmlRepositoryHit(k);
    ShortTextContainsNothing("", k);
    ShortTextContainsNothing("x", k);
    if |k| <= 4 {
      forall i | 0 <= i < 4
        ensures !OccursAt("html", k, i)
      {
        FirstCharacterDiffers("html", k, i);
      }
    }
  }

  /** A list of keywords that all miss the repository by `HtmlRepositoryMiss`. */
  lemma HtmlMissesAll(ks: seq<string>)
    requires forall i :: 0 <= i < |ks| ==> |ks[i]| >= 2 && (|ks[i]| > 4 || ks[i][0] !in "html")
    ensures !AnyHit(ks, KeywordHit(HtmlRepository))
  {
    forall k | k in ks
      ensures !KeywordHit(HtmlRepository)(k)
    {
      var i :| 0 <= i < |ks| && ks[i] == k;
      HtmlRepositoryMiss(k);
    }
  }

  lemma HtmlMissesWebFramework()
    ensures !AnyHit(WebFramework.keywords, KeywordHit(HtmlRepository))
  {
    HtmlMissesAll(WebFramework.keywords);
  }

  lemma HtmlMissesMobile()
    ensures !AnyHit(MobileDevelopment.keywords, KeywordHit(HtmlRepository))
  {
    HtmlMissesAll(MobileDevelopment.keywords);
  }

  lemma HtmlHitsMachineLearning()
    ensures AnyHit(MachineLearning.keywords, KeywordHit(HtmlRepository))
  {
    HtmlRepositoryHit("ml");
    assert OccursAt("html", "ml", 2);
    assert MachineLearning.keywords[0] == "ml";
  }

  lemma TableStart()
    ensures |CategoryTable| == 12
    ensures CategoryTable[0] == WebFramework && CategoryTable[1] == MobileDevelopment
    ensures CategoryTable[2] == MachineLearning && MachineLearning.name == "Machine Learning"
  {
  }

  /** Substring matching on the language puts a repository written in HTML into
      "Machine Learning", because "html" contains "ml". */
  lemma HtmlIsMachineLearning()
    ensures CategoryOf(HtmlRepository) == "Machine Learning"
  {
    TableStart();
    HtmlMissesWebFramework();
    HtmlMissesMobile();
    HtmlHitsMachineLearning();
    ThirdCategoryFirst(CategoryTable, KeywordHit(HtmlRepository));
  }
}
