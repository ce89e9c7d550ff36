/** Corpora of decoded twin pairs: what authored variants decode to, and why
    their materials are admitted in any order
    (src/witnessgap/workspace100/generation.py:224-274, views.py:880-927). */
module Corpora {
  import opened Model
  import opened Order
  import opened Records
  import opened Generation
  import opened Runtime
  import opened Views
  import opened Twins
  import opened Materials
  import opened Projection
  import opened Projector
  import opened Authoring

  /** Everything the construction is given besides the variants. */
  datatype Workshop = Workshop(
    protocol: Protocol,
    encode: Encoder,
    snapshot: CompletionSourceRecord -> string)

  /** The trusted templates and identities: the digests bind, and each template
      is valid, is filed under its own name and declares names that fit the core. */
  ghost predicate Trusted(shop: Workshop) {
    && shop.protocol.ids.Binding() && shop.protocol.Binding() && Faithful(shop.encode)
    && forall t: TemplateId :: TrustedTemplate(shop.protocol.templates(t), t)
  }

  predicate TrustedTemplate(t: TemplateRecord, id: TemplateId) {
    && t.Valid() && t.templateId == id && t.epochProbe != OWNER_PROBE
    && CoreName(t.taskSchemaId) && CoreName(t.refreshAtom) && CoreName(t.repairAtom)
    && CoreName(t.epochProbe) && CoreName(t.selectionChannel) && CoreName(t.resolverChannel)
  }

  /** The two worlds of a variant, in commitment order. */
  datatype WorldPair = WorldPair(left: Workspace100World, right: Workspace100World)

  function World(shop: Workshop, c: GeneratedCompletion): Workspace100World {
    Decoded(c, shop.protocol.templates(c.record.templateId), shop.snapshot(c.record), shop.encode)
  }

  function WorldsOf(shop: Workshop): VariantRecord -> WorldPair {
    (v: VariantRecord) =>
      var pair := PairOf(shop.protocol.templates(v.templateId), v, shop.protocol.ids);
      WorldPair(World(shop, pair.left), World(shop, pair.right))
  }

  ghost function MaterialOf(protocol: Protocol): WorldPair -> PairMaterial {
    (p: WorldPair) => MaterialFor(p.left, p.right, protocol)
  }

  /** Twins of a template that the protocol knows. */
  ghost predicate KnownTwins(protocol: Protocol, p: WorldPair) {
    && DeclaredTwins(p.left, p.right)
    && protocol.templates(p.left.record.templateId) == p.left.template
  }

  ghost function Known(protocol: Protocol): WorldPair -> bool {
    (p: WorldPair) => KnownTwins(protocol, p)
  }

  ghost predicate AllMeet<T>(ok: T -> bool, s: seq<T>) {
    forall i :: 0 <= i < |s| ==> ok(s[i])
  }

  /** Each authored variant decodes to twins of its template. */
  lemma VariantsAreTwins(shop: Workshop, v: VariantRecord)
    requires Trusted(shop) && v.Valid()
    ensures KnownTwins(shop.protocol, WorldsOf(shop)(v))
    ensures WorldsOf(shop)(v).left.template == shop.protocol.templates(v.templateId)
  {
    var t := shop.protocol.templates(v.templateId);
    assert TrustedTemplate(t, v.templateId);
    var pair := PairOf(t, v, shop.protocol.ids);
    PairOfIsValid(t, v, shop.protocol.ids);
    GeneratedPairsAreTwins(
      pair, shop.protocol.ids, t, shop.snapshot(pair.left.record), shop.snapshot(pair.right.record), shop.encode);
  }

  /** No opaque identity is used twice (`_validate_global_generation_uniqueness`
      and its runtime counterpart). */
  ghost predicate UniqueIdentities(ms: seq<PairMaterial>) {
    && (forall i :: 0 <= i < |ms| ==> Unrelated(ms[i].left, ms[i].right))
    && (forall i, j :: 0 <= i < |ms| && 0 <= j < |ms| && i != j ==> Separate(ms[i], ms[j]))
  }

  /** Decoded pairs that are ready to be projected together. */
  ghost predicate Corpus(protocol: Protocol, pairs: seq<WorldPair>) {
    && protocol.Binding()
    && AllMeet(Known(protocol), pairs)
    && UniqueIdentities(Apply(pairs, MaterialOf(protocol)))
  }

  /** A trusted workshop, valid variants, and no identity used twice. */
  ghost predicate ReadyToBuild(shop: Workshop, variants: seq<VariantRecord>) {
    && Trusted(shop)
    && (forall i :: 0 <= i < |variants| ==> variants[i].Valid())
    && UniqueIdentities(Apply(Apply(variants, WorldsOf(shop)), MaterialOf(shop.protocol)))
  }

  lemma VariantsFormACorpus(shop: Workshop, variants: seq<VariantRecord>)
    requires ReadyToBuild(shop, variants)
    ensures Corpus(shop.protocol, Apply(variants, WorldsOf(shop)))
  {
    var pairs := Apply(variants, WorldsOf(shop));
    forall i | 0 <= i < |pairs| ensures Known(shop.protocol)(pairs[i]) {
      VariantsAreTwins(shop, variants[i]);
    }
  }

  lemma TwinsAreGood(protocol: Protocol, p: WorldPair, m: PairMaterial)
    requires Known(protocol)(p) && protocol.Binding() && m == MaterialOf(protocol)(p)
    requires Unrelated(m.left, m.right)
    ensures Good(protocol)(m) && TwinFacts(m, p.left.template)
    ensures Authoring.Ready(p.left, p.right, protocol)
  {
    TwinsYieldGoodMaterial(p.left, p.right, protocol);
  }

  // ---------- admissible in any order ----------

  lemma {:induction false} UsedIdentities(ms: seq<PairMaterial>, m: PairMaterial)
    requires forall i :: 0 <= i < |ms| ==> Separate(ms[i], m)
    requires Unrelated(m.left, m.right)
    ensures UsedBy(ms).FreshPair(m)
  {
    if ms != [] {
      UsedIdentities(ms[..|ms| - 1], m);
      assert Separate(ms[|ms| - 1], m);
    }
  }

  lemma {:induction false} UniqueIsAdmissible(ok: PairMaterial -> bool, ms: seq<PairMaterial>)
    requires AllMeet(ok, ms) && UniqueIdentities(ms)
    ensures Admissible(ok, ms)
  {
    if ms != [] {
      UniqueIsAdmissible(ok, ms[..|ms| - 1]);
      UsedIdentities(ms[..|ms| - 1], ms[|ms| - 1]);
    }
  }

  lemma UniqueInAnyOrder(ok: PairMaterial -> bool, a: seq<PairMaterial>, b: seq<PairMaterial>)
    requires AllMeet(ok, a) && UniqueIdentities(a) && multiset(a) == multiset(b)
    ensures AllMeet(ok, b) && UniqueIdentities(b)
  {
    forall i, j | 0 <= i < j < |a| ensures a[i] != a[j] {
      assert Separate(a[i], a[j]);
    }
    DistinctPermutation(a, b);
    SameMultiset(a, b);
    forall i | 0 <= i < |b| ensures ok(b[i]) && Unrelated(b[i].left, b[i].right) {
      assert b[i] in Elements(a);
    }
    forall i, j | 0 <= i < |b| && 0 <= j < |b| && i != j ensures Separate(b[i], b[j]) {
      assert b[i] in Elements(a) && b[j] in Elements(a);
      var x :| 0 <= x < |a| && a[x] == b[i];
      var y :| 0 <= y < |a| && a[y] == b[j];
    }
  }

  /** The materials of a corpus are admitted in the order of the projection. */
  lemma CorpusIsAdmissible(protocol: Protocol, pairs: seq<WorldPair>, ms: seq<PairMaterial>)
    requires Corpus(protocol, pairs) && ms == Apply(pairs, MaterialOf(protocol))
    ensures Admissible(Good(protocol), Sort(ByKey(MaterialKey), ms))
  {
    var ok := Good(protocol);
    forall i | 0 <= i < |ms| ensures ok(ms[i]) {
      TwinsAreGood(protocol, pairs[i], ms[i]);
    }
    UniqueInAnyOrder(ok, ms, Sort(ByKey(MaterialKey), ms));
    UniqueIsAdmissible(ok, Sort(ByKey(MaterialKey), ms));
  }
}
