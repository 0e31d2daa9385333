/** The level cache of logger/config.go, and the loggers of logger/logger.go that use it. */
module LoggerLevels {
  import opened Options

  /** A logger is the sequence of names given to Child, from the root logger on; none of them is empty. */
  type Path = seq<string>

  predicate IsPath(p: Path) {
    forall i :: 0 <= i < |p| ==> p[i] != ""
  }

  function Child(p: Path, name: string): Path {
    if name == "" then p else p + [name]
  }

  function Parent(p: Path): Path
    requires p != []
  {
    p[..|p| - 1]
  }

  /** The logger's name. */
  function Name(p: Path): string {
    if p == [] then ""
    else if Name(Parent(p)) == "" then p[|p| - 1]
    else Name(Parent(p)) + "." + p[|p| - 1]
  }

  datatype Levels = Levels(root: int, config: map<string, int>, cache: map<string, int>)

  /** The level of the nearest ancestor that has one, the logger itself included, or the root level. */
  function Nearest(s: Levels, p: Path): int {
    if p == [] then s.root else if Name(p) in s.config then s.config[Name(p)] else Nearest(s, Parent(p))
  }

  /** The answer to a query and the cache it leaves. */
  function Asked(s: Levels, p: Path): (Levels, int) {
    var n := Name(p);
    if n == "" then (s, s.root)
    else if n in s.cache then (s, s.cache[n])
    else
      var (t, level) := if n in s.config then (s, s.config[n]) else Asked(s, Parent(p));
      (t.(cache := t.cache[n := level]), level)
  }

  function Configured(s: Levels, name: string, level: int): Levels {
    if name == "" then s.(root := level, cache := map[])
    else s.(config := s.config[name := level], cache := map[])
  }

  class Factory {
    var rootLevel: int
    var levelConfig: map<string, int>
    var levelConfigCache: map<string, int>

    ghost function View(): Levels
      reads this
    {
      Levels(rootLevel, levelConfig, levelConfigCache)
    }

    constructor (root: int, config: map<string, int>)
      ensures View() == Levels(root, config, map[])
    {
      rootLevel, levelConfig, levelConfigCache := root, config, map[];
    }

    /** An unknown level is an error and changes nothing. */
    method SetLogLevel(name: string, level: Option<int>) returns (ok: bool)
      modifies this
      ensures ok == level.Some? && View() == if ok then Configured(old(View()), name, level.value) else old(View())
    {
      if level.None? {
        return false;
      }
      if name == "" {
        rootLevel := level.value;
      } else {
        levelConfig := levelConfig[name := level.value];
      }
      levelConfigCache := map[];
      return true;
    }

    /** getOrSetLogLevel, whose function for the parent's level is the same for the parent. */
    method GetLoggingLevel(p: Path) returns (level: int)
      modifies this
      ensures (View(), level) == Asked(old(View()), p)
      decreases |p|
    {
      var name := Name(p);
      if name == "" {
        return rootLevel;
      }
      if name in levelConfigCache {
        return levelConfigCache[name];
      }
      if name in levelConfig {
        level := levelConfig[name];
      } else {
        level := GetLoggingLevel(Parent(p));
      }
      levelConfigCache := levelConfigCache[name := level];
    }
  }

  // ---------------------------------------------------------------- families of loggers

  /** Loggers together with their ancestors. */
  predicate Family(loggers: set<Path>) {
    forall p :: p in loggers ==> IsPath(p) && (p != [] ==> Parent(p) in loggers)
  }

  predicate Unambiguous(loggers: set<Path>) {
    forall p, q :: p in loggers && q in loggers && Name(p) == Name(q) ==> p == q
  }

  lemma NameIsEmpty(p: Path)
    requires IsPath(p)
    ensures Name(p) == "" <==> p == []
  {
    if p != [] {
      assert p[|p| - 1] != "";
    }
  }

  lemma LongerThanParent(p: Path)
    requires IsPath(p) && p != []
    ensures |Name(Parent(p))| < |Name(p)| && Name(Parent(p)) <= Name(p)
  {
    assert p[|p| - 1] != "";
  }

  predicate DotFree(s: string) {
    '.' !in s
  }

  /** Names without dots make names of loggers unambiguous. */
  lemma {:induction false} DotFreeNames(p: Path, q: Path)
    requires IsPath(p) && IsPath(q) && Name(p) == Name(q)
    requires (forall i :: 0 <= i < |p| ==> DotFree(p[i])) && (forall i :: 0 <= i < |q| ==> DotFree(q[i]))
    ensures p == q
    decreases |p|
  {
    NameIsEmpty(p);
    NameIsEmpty(q);
    if p != [] {
      NameIsEmpty(Parent(p));
      NameIsEmpty(Parent(q));
      var a, b, x, y := Name(Parent(p)), Name(Parent(q)), p[|p| - 1], q[|q| - 1];
      HasDot(a, x);
      HasDot(b, y);
      if Parent(p) != [] && Parent(q) != [] {
        LastDot(a, x, b, y);
        DotFreeNames(Parent(p), Parent(q));
      }
      assert p == Parent(p) + [x] && q == Parent(q) + [y];
    }
  }

  lemma HasDot(a: string, x: string)
    ensures (a + "." + x)[|a|] == '.' && '.' in a + "." + x
  {
  }

  lemma Tail(a: string, x: string, k: nat)
    ensures |a| < k <= |a| + |x| ==> (a + "." + x)[k] in x
  {
    if |a| < k <= |a| + |x| {
      assert (a + "." + x)[k] == x[k - |a| - 1];
    }
  }

  lemma LastDot(a: string, x: string, b: string, y: string)
    requires a + "." + x == b + "." + y && DotFree(x) && DotFree(y)
    ensures a == b && x == y
  {
    HasDot(a, x);
    HasDot(b, y);
    Tail(a, x, |b|);
    Tail(b, y, |a|);
    SameHead(a, x, b, y);
  }

  lemma SameHead(a: string, x: string, b: string, y: string)
    requires a + "." + x == b + "." + y && |a| == |b|
    ensures a == b && x == y
  {
    assert a == (a + "." + x)[..|a|] && b == (b + "." + y)[..|b|];
    assert x == (a + "." + x)[|a| + 1..] && y == (b + "." + y)[|b| + 1..];
  }

  // ---------------------------------------------------------------- runs

  datatype Step = Set(name: string, level: int) | Ask(p: Path)

  function Apply(s: Levels, step: Step): Levels {
    match step
    case Set(name, level) => Configured(s, name, level)
    case Ask(p) => Asked(s, p).0
  }

  predicate AsksOf(loggers: set<Path>, steps: seq<Step>) {
    forall i :: 0 <= i < |steps| && steps[i].Ask? ==> steps[i].p in loggers
  }

  /** Every answer of the run is the level of the nearest configured ancestor at that time. */
  predicate Right(s: Levels, steps: seq<Step>)
    decreases |steps|
  {
    steps == [] || ((steps[0].Ask? ==> Asked(s, steps[0].p).1 == Nearest(s, steps[0].p)) && Right(Apply(s, steps[0]), steps[1..]))
  }

  predicate Consistent(s: Levels, loggers: set<Path>) {
    forall p :: p in loggers && Name(p) in s.cache ==> s.cache[Name(p)] == Nearest(s, p)
  }

  lemma {:induction false} NearestIgnoresCache(s: Levels, t: Levels, p: Path)
    requires s.root == t.root && s.config == t.config
    ensures Nearest(s, p) == Nearest(t, p)
    decreases |p|
  {
    if p != [] {
      NearestIgnoresCache(s, t, Parent(p));
    }
  }

  lemma {:induction false} AskIsRight(s: Levels, loggers: set<Path>, p: Path)
    requires Family(loggers) && Unambiguous(loggers) && Consistent(s, loggers) && p in loggers
    ensures var (t, level) := Asked(s, p);
            level == Nearest(s, p) && t.root == s.root && t.config == s.config && Consistent(t, loggers)
    decreases |p|
  {
    NameIsEmpty(p);
    if p != [] && Name(p) !in s.cache {
      if Name(p) !in s.config {
        AskIsRight(s, loggers, Parent(p));
      }
      var (t, level) := Asked(s, p);
      forall q | q in loggers && Name(q) in t.cache ensures t.cache[Name(q)] == Nearest(t, q) {
        NearestIgnoresCache(s, t, q);
        if q != p && Name(p) !in s.config {
          NearestIgnoresCache(Asked(s, Parent(p)).0, s, q);
        }
      }
    }
  }

  lemma {:induction false} LevelsAreRight(s: Levels, loggers: set<Path>, steps: seq<Step>)
    requires Family(loggers) && Unambiguous(loggers) && Consistent(s, loggers) && AsksOf(loggers, steps)
    ensures Right(s, steps)
    decreases |steps|
  {
    if steps != [] {
      if steps[0].Ask? {
        AskIsRight(s, loggers, steps[0].p);
      }
      LevelsAreRight(Apply(s, steps[0]), loggers, steps[1..]);
    }
  }

  // ---------------------------------------------------------------- ambiguous names mislead

  /** Some ancestor of p, p excluded and the root too, has this name. */
  predicate Above(p: Path, n: string) {
    p != [] && n != "" && (Name(Parent(p)) == n || Above(Parent(p), n))
  }

  lemma {:induction false} AboveIsShorter(p: Path, n: string)
    requires IsPath(p) && Above(p, n)
    ensures |n| < |Name(p)|
    decreases |p|
  {
    LongerThanParent(p);
    if Name(Parent(p)) != n {
      AboveIsShorter(Parent(p), n);
    }
  }

  /** Different loggers of one name differ in the name of an ancestor. */
  lemma {:induction false} AmbiguousAncestor(p: Path, q: Path) returns (n: string)
    requires IsPath(p) && IsPath(q) && p != q && Name(p) == Name(q)
    ensures Above(p, n) != Above(q, n)
    decreases |p|
  {
    NameIsEmpty(p);
    NameIsEmpty(q);
    NameIsEmpty(Parent(p));
    NameIsEmpty(Parent(q));
    var a, b := Name(Parent(p)), Name(Parent(q));
    assert p == Parent(p) + [p[|p| - 1]] && q == Parent(q) + [q[|q| - 1]];
    if |a| > |b| {
      n := a;
      if Above(q, n) {
        AboveIsShorter(Parent(q), n);
      }
    } else if |b| > |a| {
      n := b;
      if Above(p, n) {
        AboveIsShorter(Parent(p), n);
      }
    } else {
      LongerThanParent(p);
      LongerThanParent(q);
      assert a == b == Name(p)[..|a|];
      if Parent(p) == Parent(q) && a != "" {
        SameHead(a, p[|p| - 1], b, q[|q| - 1]);
      }
      n := AmbiguousAncestor(Parent(p), Parent(q));
      assert n != a by {
        if n == a {
          if Above(Parent(p), n) { AboveIsShorter(Parent(p), n); }
          if Above(Parent(q), n) { AboveIsShorter(Parent(q), n); }
        }
      }
    }
  }

  /** With one level set, on n, the loggers below n have it and the others the root's. */
  lemma {:induction false} OneLevel(p: Path, n: string, cache: map<string, int>)
    requires IsPath(p) && n != ""
    ensures Nearest(Levels(0, map[n := 1], cache), p) == if Name(p) == n || Above(p, n) then 1 else 0
    decreases |p|
  {
    if p != [] {
      OneLevel(Parent(p), n, cache);
    }
  }

  lemma {:induction false} FirstAsk(s: Levels, p: Path)
    requires IsPath(p) && s.cache == map[]
    ensures var (t, level) := Asked(s, p);
            && level == Nearest(s, p) && t.root == s.root && t.config == s.config
            && (p != [] ==> Name(p) in t.cache && t.cache[Name(p)] == level)
    decreases |p|
  {
    NameIsEmpty(p);
    if p != [] {
      FirstAsk(s, Parent(p));
    }
  }

  /** A run that misleads: the level of one ancestor is set, and two loggers of one name are asked. */
  lemma AmbiguityMisleads(loggers: set<Path>) returns (steps: seq<Step>)
    requires Family(loggers) && !Unambiguous(loggers)
    ensures AsksOf(loggers, steps) && !Right(Levels(0, map[], map[]), steps)
  {
    var p, q :| p in loggers && q in loggers && Name(p) == Name(q) && p != q;
    var n := AmbiguousAncestor(p, q);
    var s1 := Configured(Levels(0, map[], map[]), n, 1);
    NameIsEmpty(p);
    NameIsEmpty(q);
    assert n != "" && s1 == Levels(0, map[n := 1], map[]);
    FirstAsk(s1, p);
    var s2 := Asked(s1, p).0;
    OneLevel(p, n, map[]);
    OneLevel(q, n, s2.cache);
    assert n != Name(p) by {
      if Above(p, n) { AboveIsShorter(p, n); }
      if Above(q, n) { AboveIsShorter(q, n); }
    }
    steps := [Set(n, 1), Ask(p), Ask(q)];
    assert steps[1..] == [Ask(p), Ask(q)] && steps[1..][1..] == [Ask(q)];
    assert !Right(s2, [Ask(q)]);
    assert !Right(s1, [Ask(p), Ask(q)]);
  }

  /** For a family of loggers and their ancestors: through any sequence of level changes and queries from an empty
      cache, every query answers the level of the nearest configured ancestor, if and only if no two of the
      loggers have the same name. */
  lemma LevelsAreRightExactly(loggers: set<Path>)
    requires Family(loggers)
    ensures Unambiguous(loggers) <==>
            forall root, config, steps :: AsksOf(loggers, steps) ==> Right(Levels(root, config, map[]), steps)
  {
    if Unambiguous(loggers) {
      forall root, config, steps | AsksOf(loggers, steps) ensures Right(Levels(root, config, map[]), steps) {
        LevelsAreRight(Levels(root, config, map[]), loggers, steps);
      }
    } else {
      var steps := AmbiguityMisleads(loggers);
      assert !Right(Levels(0, map[], map[]), steps);
    }
  }

  /** Loggers built from names without dots are such. */
  lemma DotFreeIsUnambiguous(loggers: set<Path>)
    requires Family(loggers) && forall p, i :: p in loggers && 0 <= i < |p| ==> DotFree(p[i])
    ensures Unambiguous(loggers)
  {
    forall p, q | p in loggers && q in loggers && Name(p) == Name(q) ensures p == q {
      DotFreeNames(p, q);
    }
  }

  /** A name with a dot makes them ambiguous: Child("a").Child("b") and Child("a.b"). */
  lemma DotsAreAmbiguous()
    ensures var loggers: set<Path> := {[], ["a"], ["a", "b"], ["a.b"]}; Family(loggers) && !Unambiguous(loggers)
  {
    var loggers: set<Path> := {[], ["a"], ["a", "b"], ["a.b"]};
    var p: Path, q: Path := ["a", "b"], ["a.b"];
    assert Parent(p) == ["a"] && Parent(["a"]) == [] && Parent(q) == [];
    assert Name(["a"]) == "a";
    assert Name(p) == "a.b" == Name(q) && p != q;
    assert p in loggers && q in loggers;
  }

  // ---------------------------------------------------------------- levels by what was set

  function After(s: Levels, steps: seq<Step>): Levels {
    if steps == [] then s else Apply(After(s, steps[..|steps| - 1]), steps[|steps| - 1])
  }

  /** The level last set on a name; the empty name stands for the root. */
  function LastSet(steps: seq<Step>, name: string): Option<int> {
    if steps == [] then None
    else
      match steps[|steps| - 1]
      case Set(n, level) => if n == name then Some(level) else LastSet(steps[..|steps| - 1], name)
      case Ask(_) => LastSet(steps[..|steps| - 1], name)
  }

  /** The level last set on the logger, or else configured for it at first, or else its parent's. */
  function Effective(root: int, config: map<string, int>, steps: seq<Step>, p: Path): int {
    var n := if p == [] then "" else Name(p);
    if LastSet(steps, n).Some? then LastSet(steps, n).value
    else if p == [] then root
    else if n in config then config[n] else Effective(root, config, steps, Parent(p))
  }

  lemma {:induction false} AskKeepsLevels(s: Levels, p: Path)
    ensures Asked(s, p).0.root == s.root && Asked(s, p).0.config == s.config
    decreases |p|
  {
    if Name(p) != "" {
      AskKeepsLevels(s, Parent(p));
    }
  }

  /** Setting a level changes that of its name alone, and queries change none. */
  lemma {:induction false} LevelsAreLastSet(s: Levels, steps: seq<Step>)
    ensures var t := After(s, steps);
            && t.root == (if LastSet(steps, "").Some? then LastSet(steps, "").value else s.root)
            && forall n :: n != "" ==>
                 && (n in t.config <==> n in s.config || LastSet(steps, n).Some?)
                 && (n in t.config ==> t.config[n] == if LastSet(steps, n).Some? then LastSet(steps, n).value else s.config[n])
  {
    if steps != [] {
      var before, last := steps[..|steps| - 1], steps[|steps| - 1];
      LevelsAreLastSet(s, before);
      if last.Ask? {
        AskKeepsLevels(After(s, before), last.p);
      }
      hide Asked;
    }
  }

  lemma {:induction false} NearestIsEffective(s: Levels, steps: seq<Step>, p: Path)
    requires IsPath(p)
    ensures Nearest(After(s, steps), p) == Effective(s.root, s.config, steps, p)
    decreases |p|
  {
    LevelsAreLastSet(s, steps);
    NameIsEmpty(p);
    hide After, LastSet;
    if p != [] {
      NearestIsEffective(s, steps, Parent(p));
    }
  }

  lemma {:induction false} RunStaysConsistent(s: Levels, loggers: set<Path>, steps: seq<Step>)
    requires Family(loggers) && Unambiguous(loggers) && Consistent(s, loggers) && AsksOf(loggers, steps)
    ensures Consistent(After(s, steps), loggers)
  {
    if steps != [] {
      var before, last := steps[..|steps| - 1], steps[|steps| - 1];
      RunStaysConsistent(s, loggers, before);
      if last.Ask? {
        AskIsRight(After(s, before), loggers, last.p);
      }
    }
  }

  /** After any sequence of level changes and queries a logger of an unambiguous family has the level last set on it,
      or else configured for it at first, or else that of its parent. */
  lemma AnswersAreEffective(root: int, config: map<string, int>, loggers: set<Path>, steps: seq<Step>, p: Path)
    requires Family(loggers) && Unambiguous(loggers) && AsksOf(loggers, steps) && p in loggers
    ensures Asked(After(Levels(root, config, map[]), steps), p).1 == Effective(root, config, steps, p)
  {
    var s := Levels(root, config, map[]);
    RunStaysConsistent(s, loggers, steps);
    AskIsRight(After(s, steps), loggers, p);
    NearestIsEffective(s, steps, p);
  }
}
