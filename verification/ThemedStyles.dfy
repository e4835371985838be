/** Text size and the stylesheet cache: setTextScale of mobile/src/theme.ts and getThemedStyles of
    mobile/src/ThemeContext.ts. */
module ThemedStyles {
  import opened Wrappers

  /** A text style token; sizes it does not set are `None`. */
  datatype TextStyle = TextStyle(fontSize: Option<int>, lineHeight: Option<int>, rest: string)

  type Typography = map<string, TextStyle>

  datatype Scale = Small | Default | Large | Larger

  function Factor(s: Scale): real {
    match s
    case Small => 0.9
    case Default => 1.0
    case Large => 1.15
    case Larger => 1.3
  }

  /** The scale a stored value names; anything else is the default. */
  function ScaleOf(name: string): Scale {
    if name == "small" then Small
    else if name == "large" then Large
    else if name == "larger" then Larger
    else Default
  }

  /** `Math.round`: to the nearest integer, halves up. */
  function Round(x: real): int {
    (x + 0.5).Floor
  }

  function SizeAt(points: int, factor: real): int {
    Round(points as real * factor)
  }

  function ScaledSize(size: Option<int>, factor: real): Option<int> {
    if size.Some? then Some(SizeAt(size.value, factor)) else None
  }

  function ScaledStyle(base: TextStyle, factor: real): TextStyle {
    base.(fontSize := ScaledSize(base.fontSize, factor), lineHeight := ScaledSize(base.lineHeight, factor))
  }

  /** Every token of the base table, scaled. */
  function ScaledBy(base: Typography, factor: real): Typography {
    map t | t in base :: ScaledStyle(base[t], factor)
  }

  function Scaled(base: Typography, s: Scale): Typography {
    ScaledBy(base, Factor(s))
  }

  /** One token of the loop: only the sizes the base sets are reassigned, in the style that is live.
      Nothing of the active factor is left in them. */
  method RescaledStyle(base: TextStyle, style: TextStyle, ghost active: real, factor: real) returns (live: TextStyle)
    requires style == ScaledStyle(base, active)
    ensures live == ScaledStyle(base, factor)
  {
    live := style;
    if base.fontSize.Some? {
      live := live.(fontSize := Some(SizeAt(base.fontSize.value, factor)));
    }
    if base.lineHeight.Some? {
      live := live.(lineHeight := Some(SizeAt(base.lineHeight.value, factor)));
    }
  }

  lemma UnscaledSize(size: Option<int>)
    ensures ScaledSize(size, 1.0) == size
  {
    if size.Some? {
      assert size.value as real * 1.0 == size.value as real;
    }
  }

  lemma DefaultScaleIsBase(base: Typography)
    ensures Scaled(base, Default) == base
  {
    forall t | t in base
      ensures ScaledStyle(base[t], 1.0) == base[t]
    {
      UnscaledSize(base[t].fontSize);
      UnscaledSize(base[t].lineHeight);
    }
  }

  /** A stylesheet built: by which factory, for which palette, at which text-size revision. */
  datatype Build<Factory, Palette> = Build(factory: Factory, palette: Palette, revision: nat)

  lemma RoundedTenths(points: int)
    ensures SizeAt(points, 0.9) == (18 * points + 10) / 20 && SizeAt(points, 1.3) == (26 * points + 10) / 20
  {
    var q, r := (18 * points + 10) / 20, (18 * points + 10) % 20;
    assert points as real * 0.9 + 0.5 == q as real + r as real / 20.0;
    var s, u := (26 * points + 10) / 20, (26 * points + 10) % 20;
    assert points as real * 1.3 + 0.5 == s as real + u as real / 20.0;
  }

  lemma RoundedTwentieths(points: int)
    ensures SizeAt(points, 1.15) == (46 * points + 20) / 40
  {
    var q, r := (46 * points + 20) / 40, (46 * points + 20) % 40;
    assert points as real * 1.15 + 0.5 == q as real + r as real / 40.0;
  }

  /** The sizes a name stands for: nine tenths, 23 twentieths and 13 tenths of the base size to the nearest
      point, halves up; any other name leaves it. */
  lemma ChosenSizes(name: string, points: int)
    ensures SizeAt(points, Factor(ScaleOf(name))) ==
              match name
              case "small" => (18 * points + 10) / 20
              case "large" => (46 * points + 20) / 40
              case "larger" => (26 * points + 10) / 20
              case _ => points
  {
    RoundedTenths(points);
    RoundedTwentieths(points);
    assert SizeAt(points, 1.0) == points;
  }

  class Theme<Factory(==), Palette(==), Styles> {
    const base: Typography
    /** What a factory makes of a palette and the typography it reads. */
    const build: (Factory, Palette, Typography) -> Styles

    var typography: Typography
    var activeScale: Scale
    var revision: nat

    var cache: map<Factory, map<Palette, Styles>>
    var cachedRevision: nat

    /** The typography of each revision so far, and the revision each cached entry was built at. */
    ghost var history: seq<Typography>
    ghost var builtAt: map<(Factory, Palette), nat>
    /** Every call of a factory, in order. */
    ghost var builds: seq<Build<Factory, Palette>>

    ghost predicate Valid()
      reads this
    {
      && typography == Scaled(base, activeScale)
      && |history| == revision + 1 && history[revision] == typography && cachedRevision <= revision
      && AllBuilt(cache, builtAt, history, cachedRevision)
    }

    /** Every cached stylesheet was built at a revision from `since` on, with its typography. */
    ghost predicate AllBuilt(cache: map<Factory, map<Palette, Styles>>, builtAt: map<(Factory, Palette), nat>,
                             history: seq<Typography>, since: nat) {
      forall f, p :: f in cache && p in cache[f] ==>
        && (f, p) in builtAt && since <= builtAt[(f, p)] < |history|
        && cache[f][p] == build(f, p, history[builtAt[(f, p)]])
    }

    constructor (base: Typography, build: (Factory, Palette, Typography) -> Styles)
      ensures Valid() && revision == 0 && typography == base && this.base == base && this.build == build
      ensures Tidy() && builds == []
    {
      DefaultScaleIsBase(base);
      this.base, this.build, typography, activeScale, revision := base, build, base, Default, 0;
      cache, cachedRevision, history, builtAt, builds := map[], 0, [base], map[], [];
    }

    predicate Cached(factory: Factory, palette: Palette)
      reads this
    {
      factory in cache && palette in cache[factory]
    }

    /** The cache holds exactly what was built at its revision, and that is the newest built at. It is so
        while every render is with the current revision. */
    ghost predicate Tidy()
      reads this
    {
      HoldsBuilds(cache, builds, cachedRevision)
    }

    /** `setTextScale`: sizes are recomputed from the base table, never from the current ones. */
    method SetTextScale(name: string) returns (changed: bool)
      requires Valid()
      modifies `typography, `activeScale, `revision, `history
      ensures Valid() && activeScale == ScaleOf(name) && (changed <==> old(activeScale) != ScaleOf(name))
      ensures typography == Scaled(base, ScaleOf(name))
      ensures revision == old(revision) + (if changed then 1 else 0)
      ensures history == old(history) + if changed then [typography] else []
    {
      var next := ScaleOf(name);
      if next == activeScale {
        return false;
      }
      Rescale(Factor(activeScale), Factor(next));
      activeScale := next;
      revision := revision + 1;
      history := history + [typography];
      assert forall r :: 0 <= r <= old(revision) ==> history[r] == old(history)[r];
      return true;
    }

    /** The token loop: each token in turn takes the size its base has at the next factor. */
    method Rescale(ghost active: real, factor: real)
      requires typography == ScaledBy(base, active)
      modifies `typography
      ensures typography == ScaledBy(base, factor)
    {
      var rest := base.Keys;
      while rest != {}
        invariant rest <= base.Keys && typography.Keys == base.Keys
        invariant forall t :: t in base && t in rest ==> typography[t] == ScaledStyle(base[t], active)
        invariant forall t :: t in base && t !in rest ==> typography[t] == ScaledStyle(base[t], factor)
      {
        var token :| token in rest;
        var live := RescaledStyle(base[token], typography[token], active, factor);
        typography := typography[token := live];
        rest := rest - {token};
      }
    }

    /** `getThemedStyles`. The revision is one the caller has read, now or before. With the current one
        the styles are those of the current palette and the current text size. */
    method GetThemedStyles(factory: Factory, palette: Palette, rev: nat) returns (styles: Styles)
      requires Valid() && rev <= revision
      modifies `cache, `cachedRevision, `builtAt, `builds
      ensures Valid() && cachedRevision == rev
      ensures builds == old(builds) + if rev == old(cachedRevision) && old(Cached(factory, palette)) then []
                                      else [Build(factory, palette, revision)]
      ensures rev == revision && old(Tidy()) ==> Tidy() && builds == WithBuild(old(builds), factory, palette, revision)
      ensures rev == revision ==> styles == build(factory, palette, typography)
      ensures exists r :: rev <= r <= revision && styles == build(factory, palette, history[r])
    {
      if rev != cachedRevision {
        DropAll(rev);
      }
      styles := FromCache(factory, palette);
    }

    /** The cache is dropped wholesale for another revision. */
    method DropAll(rev: nat)
      requires Valid() && rev <= revision && rev != cachedRevision
      modifies `cache, `cachedRevision, `builtAt
      ensures Valid() && cachedRevision == rev && cache == map[]
      ensures rev == revision && old(Tidy()) ==> Tidy()
    {
      cache, builtAt := map[], map[];
      cachedRevision := rev;
    }

    /** A stylesheet is built and kept. */
    method Fill(factory: Factory, palette: Palette)
      requires Valid() && !Cached(factory, palette)
      modifies `cache, `builtAt, `builds
      ensures Valid() && Cached(factory, palette) && builds == old(builds) + [Build(factory, palette, revision)]
      ensures cachedRevision == revision && old(Tidy()) ==> Tidy()
    {
      var byPalette := if factory in cache then cache[factory] else map[];
      byPalette := byPalette[palette := build(factory, palette, typography)];
      cache := cache[factory := byPalette];
      builtAt := builtAt[(factory, palette) := revision];
      builds := builds + [Build(factory, palette, revision)];
      StillBuilt(old(cache), old(builtAt), factory, palette, byPalette);
      if cachedRevision == revision && old(Tidy()) {
        StillHolds(old(cache), old(builds), factory, palette, byPalette, revision);
      }
    }

    /** A palette's styles put in the place they were taken from. */
    lemma StillBuilt(was: map<Factory, map<Palette, Styles>>, built: map<(Factory, Palette), nat>, factory: Factory,
                     palette: Palette, styles: map<Palette, Styles>)
      requires AllBuilt(was, built, history, cachedRevision) && |history| == revision + 1 && cachedRevision <= revision
      requires styles == (if factory in was then was[factory] else map[])[palette := build(factory, palette,
                                                                                          history[revision])]
      ensures AllBuilt(was[factory := styles], built[(factory, palette) := revision], history, cachedRevision)
    {
    }

    method FromCache(factory: Factory, palette: Palette) returns (styles: Styles)
      requires Valid()
      modifies `cache, `builtAt, `builds
      ensures Valid()
      ensures cachedRevision == revision ==> styles == build(factory, palette, typography)
      ensures exists r :: cachedRevision <= r <= revision && styles == build(factory, palette, history[r])
      ensures builds == old(builds) + if old(Cached(factory, palette)) then [] else [Build(factory, palette, revision)]
      ensures cachedRevision == revision && old(Tidy()) ==>
                Tidy() && builds == WithBuild(old(builds), factory, palette, revision)
    {
      if !Cached(factory, palette) {
        Fill(factory, palette);
      }
      styles := cache[factory][palette];
      assert cachedRevision <= builtAt[(factory, palette)] <= revision;
    }
  }

  ghost predicate HoldsBuilds<Factory, Palette, Styles>(cache: map<Factory, map<Palette, Styles>>,
                                                        builds: seq<Build<Factory, Palette>>, revision: nat) {
    && (forall b :: b in builds ==> b.revision <= revision)
    && (forall b :: b in builds && b.revision == revision ==> b.factory in cache && b.palette in cache[b.factory])
    && (forall f, p :: f in cache && p in cache[f] ==> Build(f, p, revision) in builds)
  }

  lemma StillHolds<Factory, Palette, Styles>(was: map<Factory, map<Palette, Styles>>,
                                             builds: seq<Build<Factory, Palette>>, factory: Factory,
                                             palette: Palette, styles: map<Palette, Styles>, revision: nat)
    requires HoldsBuilds(was, builds, revision)
    requires palette in styles && styles - {palette} == (if factory in was then was[factory] else map[]) - {palette}
    ensures HoldsBuilds(was[factory := styles], builds + [Build(factory, palette, revision)], revision)
  {
    var now := was[factory := styles];
    forall f, p | f in now && p in now[f] && (f, p) != (factory, palette)
      ensures f in was && p in was[f]
    {
      if f == factory {
        assert p in styles - {palette};
      }
    }
    forall f, p | f in was && p in was[f]
      ensures f in now && p in now[f]
    {
      if f == factory && p != palette {
        assert p in was[factory] - {palette};
      }
    }
  }

  /** The builds once this stylesheet has been built, if it had not been. */
  function WithBuild<Factory(==), Palette(==)>(builds: seq<Build<Factory, Palette>>, factory: Factory, palette: Palette,
                                               revision: nat): seq<Build<Factory, Palette>> {
    var b := Build(factory, palette, revision);
    if b in builds then builds else builds + [b]
  }

  /** A render with an old revision empties the cache: the same stylesheet is built again at one text size. */
  method StaleRenderRebuilds<Factory(==), Palette(==), Styles>(theme: Theme<Factory, Palette, Styles>, factory: Factory,
                                                               palette: Palette)
    requires theme.Valid() && theme.revision > 0
    modifies theme
    ensures theme.Valid() && theme.revision == old(theme.revision)
    ensures var n, b := |theme.builds|, Build(factory, palette, theme.revision);
            n >= 2 && theme.builds[n - 2] == b && theme.builds[n - 1] == b
  {
    var current := theme.GetThemedStyles(factory, palette, theme.revision);
    var stale := theme.GetThemedStyles(factory, palette, theme.revision - 1);
    current := theme.GetThemedStyles(factory, palette, theme.revision);
  }

  // ----- what a script does -----

  /** A text-size change, or a render with the revision `age` changes ago. */
  datatype Step<Factory, Palette> = Resize(name: string) | Render(factory: Factory, palette: Palette, age: nat)

  /** The size last chosen. */
  function ScaleAfter<Factory, Palette>(scale: Scale, script: seq<Step<Factory, Palette>>): Scale {
    if script == [] then scale
    else if script[|script| - 1].Resize? then ScaleOf(script[|script| - 1].name)
    else ScaleAfter(scale, script[..|script| - 1])
  }

  /** The typography of every revision: one more for each change to another size. */
  function HistoryAfter<Factory, Palette>(base: Typography, scale: Scale, history: seq<Typography>,
                                          script: seq<Step<Factory, Palette>>): seq<Typography> {
    if script == [] then history
    else
      var init, now := script[..|script| - 1], ScaleAfter(scale, script);
      HistoryAfter(base, scale, history, init) + if now != ScaleAfter(scale, init) then [Scaled(base, now)] else []
  }

  /** What a render gives: with the current revision the styles of the current size, and with an older one
      those of some size since. */
  ghost predicate Rendered<Factory, Palette, Styles>(build: (Factory, Palette, Typography) -> Styles,
                                                     step: Step<Factory, Palette>, history: seq<Typography>,
                                                     styles: Option<Styles>) {
    && (styles.Some? <==> step.Render?)
    && (step.Render? && history != [] ==>
          exists r :: |history| - 1 - step.age <= r < |history| && 0 <= r
                      && styles.value == build(step.factory, step.palette, history[r]))
  }

  /** Each step of a script gave what it should. */
  ghost predicate AllRendered<Factory, Palette, Styles>(
    build: (Factory, Palette, Typography) -> Styles, base: Typography, scale: Scale, history: seq<Typography>,
    script: seq<Step<Factory, Palette>>, rendered: seq<Option<Styles>>)
  {
    && |rendered| == |script|
    && (script != [] ==>
          var n := |script| - 1;
          && AllRendered(build, base, scale, history, script[..n], rendered[..n])
          && Rendered(build, script[n], HistoryAfter(base, scale, history, script[..n]), rendered[n]))
  }

  /** So a render with the current revision gives the styles of the size chosen last before it. */
  lemma {:induction false} CurrentRender<Factory, Palette, Styles>(
    build: (Factory, Palette, Typography) -> Styles, base: Typography, scale: Scale, history: seq<Typography>,
    script: seq<Step<Factory, Palette>>, rendered: seq<Option<Styles>>, i: nat)
    requires AllRendered(build, base, scale, history, script, rendered)
    requires history != [] && history[|history| - 1] == Scaled(base, scale)
    requires i < |script| && script[i].Render? && script[i].age == 0
    ensures rendered[i]
            == Some(build(script[i].factory, script[i].palette, Scaled(base, ScaleAfter(scale, script[..i]))))
    decreases script
  {
    var n := |script| - 1;
    if i < n {
      CurrentRender(build, base, scale, history, script[..n], rendered[..n], i);
      assert script[..n][..i] == script[..i];
    } else {
      HistoryEnds(base, scale, history, script[..n]);
    }
  }

  lemma {:induction false} HistoryEnds<Factory, Palette>(base: Typography, scale: Scale, history: seq<Typography>,
                                                         script: seq<Step<Factory, Palette>>)
    requires history != [] && history[|history| - 1] == Scaled(base, scale)
    ensures var h := HistoryAfter(base, scale, history, script);
            h != [] && h[|h| - 1] == Scaled(base, ScaleAfter(scale, script))
  {
    if script != [] {
      HistoryEnds(base, scale, history, script[..|script| - 1]);
    }
  }

  lemma RenderedOn<Factory, Palette, Styles>(
    build: (Factory, Palette, Typography) -> Styles, base: Typography, scale: Scale, history: seq<Typography>,
    script: seq<Step<Factory, Palette>>, i: nat, rendered: seq<Option<Styles>>, rendered': seq<Option<Styles>>)
    requires i < |script| && AllRendered(build, base, scale, history, script[..i], rendered)
    requires |rendered'| == i + 1 && rendered'[..i] == rendered
    requires Rendered(build, script[i], HistoryAfter(base, scale, history, script[..i]), rendered'[i])
    ensures AllRendered(build, base, scale, history, script[..i + 1], rendered')
  {
    assert script[..i + 1][..i] == script[..i];
  }

  lemma HistoryStep<Factory, Palette>(base: Typography, scale: Scale, history: seq<Typography>,
                                      script: seq<Step<Factory, Palette>>, i: nat)
    requires i < |script|
    ensures ScaleAfter(scale, script[..i + 1])
            == if script[i].Resize? then ScaleOf(script[i].name) else ScaleAfter(scale, script[..i])
    ensures HistoryAfter(base, scale, history, script[..i + 1])
            == HistoryAfter(base, scale, history, script[..i])
               + (var now := ScaleAfter(scale, script[..i + 1]);
                  if now != ScaleAfter(scale, script[..i]) then [Scaled(base, now)] else [])
  {
    assert script[..i + 1][..i] == script[..i];
  }

  ghost predicate AllCurrent<Factory, Palette>(script: seq<Step<Factory, Palette>>) {
    forall i :: 0 <= i < |script| && script[i].Render? ==> script[i].age == 0
  }

  /** How many size changes there have been, from the first typography on. */
  function RevisionAfter<Factory, Palette>(base: Typography, scale: Scale, history: seq<Typography>,
                                           script: seq<Step<Factory, Palette>>): nat {
    var n := |HistoryAfter(base, scale, history, script)|;
    if n == 0 then 0 else n - 1
  }

  /** What is built when nothing is built twice: each stylesheet at its first render at each revision. */
  function BuildsAfter<Factory(==), Palette(==)>(base: Typography, scale: Scale, history: seq<Typography>,
                                                 builds: seq<Build<Factory, Palette>>,
                                                 script: seq<Step<Factory, Palette>>): seq<Build<Factory, Palette>>
  {
    if script == [] then builds
    else
      var init, last := script[..|script| - 1], script[|script| - 1];
      var before := BuildsAfter(base, scale, history, builds, init);
      if last.Resize? then before
      else WithBuild(before, last.factory, last.palette, RevisionAfter(base, scale, history, init))
  }

  ghost predicate NoRepeats<T>(s: seq<T>) {
    forall i, j :: 0 <= i < j < |s| ==> s[i] != s[j]
  }

  /** Nothing is built twice at one revision. */
  lemma {:induction false} BuiltAtMostOnce<Factory, Palette>(base: Typography, scale: Scale, history: seq<Typography>,
                                                             builds: seq<Build<Factory, Palette>>,
                                                             script: seq<Step<Factory, Palette>>)
    requires NoRepeats(builds)
    ensures NoRepeats(BuildsAfter(base, scale, history, builds, script))
  {
    if script != [] {
      BuiltAtMostOnce(base, scale, history, builds, script[..|script| - 1]);
    }
  }

  /** Everything rendered is built at the revision it is rendered at, then or before. */
  lemma {:induction false} BuiltAtLeastOnce<Factory, Palette>(base: Typography, scale: Scale, history: seq<Typography>,
                                                              builds: seq<Build<Factory, Palette>>,
                                                              script: seq<Step<Factory, Palette>>, i: nat)
    requires i < |script| && script[i].Render?
    ensures Build(script[i].factory, script[i].palette, RevisionAfter(base, scale, history, script[..i]))
            in BuildsAfter(base, scale, history, builds, script)
    decreases script
  {
    var n := |script| - 1;
    if i < n {
      BuiltAtLeastOnce(base, scale, history, builds, script[..n], i);
      assert script[..n][..i] == script[..i];
    }
  }

  /** Any interleaving of text-size changes and renders, some with an old revision: the typography is always
      the base table scaled once by the size last chosen, and every render is of a size no older than its
      revision. When none is old, a size change rebuilds each stylesheet once. */
  method Run<Factory(==), Palette(==), Styles>(theme: Theme<Factory, Palette, Styles>,
                                               script: seq<Step<Factory, Palette>>)
    returns (rendered: seq<Option<Styles>>)
    requires theme.Valid()
    modifies theme
    ensures theme.Valid() && theme.activeScale == ScaleAfter(old(theme.activeScale), script)
    ensures theme.typography == Scaled(theme.base, ScaleAfter(old(theme.activeScale), script))
    ensures theme.history == HistoryAfter(theme.base, old(theme.activeScale), old(theme.history), script)
    ensures AllRendered(theme.build, theme.base, old(theme.activeScale), old(theme.history), script, rendered)
    ensures AllCurrent(script) && old(theme.Tidy()) ==>
              && theme.Tidy()
              && theme.builds
                 == BuildsAfter(theme.base, old(theme.activeScale), old(theme.history), old(theme.builds), script)
  {
    ghost var scale, history, builds := theme.activeScale, theme.history, theme.builds;
    ghost var tidy := AllCurrent(script) && theme.Tidy();
    rendered := [];
    for i := 0 to |script|
      invariant theme.Valid() && theme.activeScale == ScaleAfter(scale, script[..i])
      invariant theme.history == HistoryAfter(theme.base, scale, history, script[..i])
      invariant AllRendered(theme.build, theme.base, scale, history, script[..i], rendered)
      invariant tidy ==> theme.Tidy() && theme.builds == BuildsAfter(theme.base, scale, history, builds, script[..i])
    {
      HistoryStep(theme.base, scale, history, script, i);
      assert script[..i + 1][..i] == script[..i];
      var styles := Perform(theme, script[i]);
      ghost var rendered0 := rendered;
      rendered := rendered + [styles];
      RenderedOn(theme.build, theme.base, scale, history, script, i, rendered0, rendered);
    }
    assert script[..|script|] == script;
  }

  method Perform<Factory(==), Palette(==), Styles>(theme: Theme<Factory, Palette, Styles>, step: Step<Factory, Palette>)
    returns (styles: Option<Styles>)
    requires theme.Valid()
    modifies theme
    ensures theme.Valid()
    ensures Rendered(theme.build, step, old(theme.history), styles)
    ensures theme.activeScale == if step.Resize? then ScaleOf(step.name) else old(theme.activeScale)
    ensures theme.history == old(theme.history)
                             + if theme.activeScale != old(theme.activeScale) then
                                 [Scaled(theme.base, theme.activeScale)]
                               else []
    ensures step.Resize? ==> theme.builds == old(theme.builds) && (old(theme.Tidy()) ==> theme.Tidy())
    ensures step.Render? && step.age == 0 && old(theme.Tidy()) ==>
              && theme.Tidy()
              && theme.builds == WithBuild(old(theme.builds), step.factory, step.palette, old(theme.revision))
  {
    match step {
      case Resize(name) =>
        var changed := theme.SetTextScale(name);
        styles := None;
      case Render(factory, palette, age) =>
        var revision := if age <= theme.revision then theme.revision - age else 0;
        var s := theme.GetThemedStyles(factory, palette, revision);
        styles := Some(s);
    }
  }
}
