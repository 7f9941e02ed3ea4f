/**
 The graph store: what one extraction writes, statement by statement, and what a restart leaves.

 MERGE finds the node or edge with the given keys or creates it. Each statement commits by itself,
 so an upsert that breaks off leaves a prefix of its statements behind.
 */
module Graph {
  import opened Wrappers

  datatype DocKey = DocKey(workspace: string, document: string)
  datatype EntityKey = EntityKey(workspace: string, entityType: string, name: string)
  datatype MentionKey = MentionKey(doc: DocKey, entity: EntityKey)
  datatype RelKey = RelKey(source: EntityKey, target: EntityKey, relType: string)

  datatype DocProps = DocProps(name: Option<string>, tags: seq<string>, sourceType: Option<string>)
  datatype Mention = Mention(chunk: Option<string>, confidence: Option<real>)
  datatype RelProps = RelProps(document: string, confidence: real)

  datatype Graph = Graph(docs: map<DocKey, DocProps>, entities: set<EntityKey>,
                         mentions: map<MentionKey, Mention>, rels: map<RelKey, RelProps>)

  datatype Statement =
    | MergeDocument(doc: DocKey, props: DocProps)
    | MergeMention(mention: MentionKey, chunk: Option<string>)
    | MergeRel(rel: RelKey, relProps: RelProps)

  /** `coalesce(r.confidence_score, 1.0)`, of an edge that may be new. */
  function Confidence(g: Graph, m: MentionKey): real {
    if m in g.mentions && g.mentions[m].confidence.Some? then g.mentions[m].confidence.value else 1.0
  }

  function Apply(g: Graph, s: Statement): Graph {
    match s
    case MergeDocument(doc, props) => g.(docs := g.docs[doc := props])
    case MergeMention(m, chunk) =>
      if m.doc !in g.docs then g  // MATCH finds no document
      else g.(entities := g.entities + {m.entity}, mentions := g.mentions[m := Mention(chunk, Some(Confidence(g, m)))])
    case MergeRel(rel, props) =>
      g.(entities := g.entities + {rel.source, rel.target}, rels := g.rels[rel := props])
  }

  function Run(g: Graph, ss: seq<Statement>): Graph {
    if ss == [] then g else Apply(Run(g, ss[..|ss| - 1]), ss[|ss| - 1])
  }

  lemma RunSnoc(g: Graph, ss: seq<Statement>, s: Statement)
    ensures Run(g, ss + [s]) == Apply(Run(g, ss), s)
  {
    assert (ss + [s])[..|ss + [s]| - 1] == ss;
  }

  lemma {:induction false} RunConcat(g: Graph, a: seq<Statement>, b: seq<Statement>)
    ensures Run(g, a + b) == Run(Run(g, a), b)
    decreases |b|
  {
    if b == [] { assert a + b == a; }
    else {
      assert (a + b)[..|a + b| - 1] == a + b[..|b| - 1];
      RunConcat(g, a, b[..|b| - 1]);
    }
  }

  // ---------------------------------------------------------------- one extraction

  datatype Entity = Entity(name: string, entityType: string)
  datatype Relation = Relation(source: string, target: string, relType: string, confidence: real)
  datatype Extraction = Extraction(doc: DocKey, entities: seq<Entity>, relations: seq<Relation>,
                                   props: DocProps, chunk: Option<string>)

  /** `type_by_name`: the type of the last entity of that name. */
  function TypeByName(es: seq<Entity>, name: string): Option<string> {
    if es == [] then None
    else if es[|es| - 1].name == name then Some(es[|es| - 1].entityType)
    else TypeByName(es[..|es| - 1], name)
  }

  function KeyOf(x: Extraction, e: Entity): EntityKey {
    EntityKey(x.doc.workspace, e.entityType, e.name)
  }

  function MentionOf(x: Extraction, e: Entity): Statement {
    MergeMention(MentionKey(x.doc, KeyOf(x, e)), x.chunk)
  }

  function MentionsOf(x: Extraction): seq<Statement> {
    seq(|x.entities|, i requires 0 <= i < |x.entities| => MentionOf(x, x.entities[i]))
  }

  /** The statement for a relation; none if an end was not extracted as an entity. */
  function RelOf(x: Extraction, r: Relation): Option<Statement> {
    var st, tt := TypeByName(x.entities, r.source), TypeByName(x.entities, r.target);
    if st.None? || tt.None? then None
    else
      var rel := RelKey(EntityKey(x.doc.workspace, st.value, r.source), EntityKey(x.doc.workspace, tt.value, r.target),
                        r.relType);
      Some(MergeRel(rel, RelProps(x.doc.document, r.confidence)))
  }

  function RelsOf(x: Extraction, rs: seq<Relation>): seq<Statement> {
    if rs == [] then []
    else
      var s := RelOf(x, rs[|rs| - 1]);
      RelsOf(x, rs[..|rs| - 1]) + (if s.Some? then [s.value] else [])
  }

  function StatementsOf(x: Extraction): seq<Statement> {
    if x.entities == [] && x.relations == [] then []
    else [MergeDocument(x.doc, x.props)] + MentionsOf(x) + RelsOf(x, x.relations)
  }

  function Extracted(x: Extraction): set<EntityKey> {
    set e | e in x.entities :: KeyOf(x, e)
  }

  lemma {:induction false} TypeIsExtracted(x: Extraction, es: seq<Entity>, name: string)
    requires TypeByName(es, name).Some? && forall e | e in es :: e in x.entities
    ensures EntityKey(x.doc.workspace, TypeByName(es, name).value, name) in Extracted(x)
    decreases |es|
  {
    var e := es[|es| - 1];
    if e.name == name { assert KeyOf(x, e) in Extracted(x); } else { TypeIsExtracted(x, es[..|es| - 1], name); }
  }

  lemma {:induction false} RelsLinkExtracted(x: Extraction, rs: seq<Relation>)
    ensures forall s | s in RelsOf(x, rs) :: s.MergeRel? && s.rel.source in Extracted(x) && s.rel.target in Extracted(x)
    decreases |rs|
  {
    if rs != [] {
      RelsLinkExtracted(x, rs[..|rs| - 1]);
      var r := rs[|rs| - 1];
      if RelOf(x, r).Some? {
        TypeIsExtracted(x, x.entities, r.source);
        TypeIsExtracted(x, x.entities, r.target);
      }
    }
  }

  lemma {:induction false} RelsAddNoNode(x: Extraction, g: Graph, ss: seq<Statement>)
    requires Extracted(x) <= g.entities
    requires forall s | s in ss :: s.MergeRel? && s.rel.source in Extracted(x) && s.rel.target in Extracted(x)
    ensures Run(g, ss).entities == g.entities
    decreases |ss|
  {
    if ss != [] {
      assert ss[|ss| - 1] in ss;
      RelsAddNoNode(x, g, ss[..|ss| - 1]);
    }
  }

  lemma {:induction false} MentionsAddNodes(x: Extraction, g: Graph, n: nat)
    requires n <= |x.entities| && x.doc in g.docs
    ensures var after := Run(g, MentionsOf(x)[..n]);
            && after.docs == g.docs && after.entities == g.entities + (set e | e in x.entities[..n] :: KeyOf(x, e))
  {
    var ss := MentionsOf(x)[..n];
    if n > 0 {
      MentionsAddNodes(x, g, n - 1);
      assert ss[..n - 1] == MentionsOf(x)[..n - 1] && ss[n - 1] == MentionOf(x, x.entities[n - 1]);
      assert x.entities[..n] == x.entities[..n - 1] + [x.entities[n - 1]];
    }
  }

  /** The nodes after an upsert: those there were and those extracted. The relation loop creates
      none, and its ends carry the type last extracted for their name. */
  lemma NodesAfter(g: Graph, x: Extraction)
    ensures Run(g, StatementsOf(x)).entities == g.entities + Extracted(x)
  {
    if x.entities != [] || x.relations != [] {
      var first, mentions, rels := [MergeDocument(x.doc, x.props)], MentionsOf(x), RelsOf(x, x.relations);
      RunConcat(g, first + mentions, rels);
      RunConcat(g, first, mentions);
      assert first[..0] == [];
      var g1 := Run(g, first);
      MentionsAddNodes(x, g1, |x.entities|);
      assert mentions[..|x.entities|] == mentions && x.entities[..|x.entities|] == x.entities;
      RelsLinkExtracted(x, x.relations);
      RelsAddNoNode(x, Run(g1, mentions), rels);
    }
  }

  /** What the last of these relations with this edge sets on it. */
  function LastSet(x: Extraction, rs: seq<Relation>, k: RelKey): Option<RelProps> {
    if rs == [] then None
    else
      var s := RelOf(x, rs[|rs| - 1]);
      if s.Some? && s.value.MergeRel? && s.value.rel == k then Some(s.value.relProps) else LastSet(x, rs[..|rs| - 1], k)
  }

  /** The edge as the last setting leaves it, or as it was; mentions and documents as they were. */
  predicate SetAs(g: Graph, after: Graph, k: RelKey, last: Option<RelProps>) {
    && (k in after.rels <==> k in g.rels || last.Some?)
    && (k in after.rels ==> after.rels[k] == if last.Some? then last.value else g.rels[k])
    && after.mentions == g.mentions && after.docs == g.docs
  }

  lemma ApplySets(g: Graph, before: Graph, s: Statement, k: RelKey, last: Option<RelProps>)
    requires SetAs(g, before, k, last) && s.MergeRel?
    ensures SetAs(g, Apply(before, s), k, if s.rel == k then Some(s.relProps) else last)
  {
  }

  lemma RunRels(x: Extraction, g: Graph, rs: seq<Relation>) returns (before: Graph, after: Graph, s: Option<Statement>)
    requires rs != []
    ensures before == Run(g, RelsOf(x, rs[..|rs| - 1])) && after == Run(g, RelsOf(x, rs)) && s == RelOf(x, rs[|rs| - 1])
    ensures if s.Some? then s.value.MergeRel? && after == Apply(before, s.value) else after == before
  {
    var front := RelsOf(x, rs[..|rs| - 1]);
    before, after, s := Run(g, front), Run(g, RelsOf(x, rs)), RelOf(x, rs[|rs| - 1]);
    if s.Some? { RunSnoc(g, front, s.value); } else { assert front + [] == front; }
  }

  lemma {:induction false} RelsAreSet(x: Extraction, g: Graph, rs: seq<Relation>, k: RelKey)
    ensures SetAs(g, Run(g, RelsOf(x, rs)), k, LastSet(x, rs, k))
    decreases |rs|
  {
    if rs != [] {
      RelsAreSet(x, g, rs[..|rs| - 1], k);
      var before, after, s := RunRels(x, g, rs);
      if s.Some? { ApplySets(g, before, s.value, k, LastSet(x, rs[..|rs| - 1], k)); }
    }
  }

  lemma {:induction false} MentionsAreSet(x: Extraction, g: Graph, n: nat, m: MentionKey)
    requires n <= |x.entities| && x.doc in g.docs
    ensures var after := Run(g, MentionsOf(x)[..n]);
            && after.rels == g.rels && after.docs == g.docs
            && (forall e | e in x.entities[..n] && m == MentionKey(x.doc, KeyOf(x, e)) ::
                  m in after.mentions && after.mentions[m] == Mention(x.chunk, Some(Confidence(g, m))))
            && Confidence(after, m) == Confidence(g, m)
    decreases n
  {
    if n > 0 {
      MentionsAreSet(x, g, n - 1, m);
      var ss := MentionsOf(x)[..n];
      assert ss[..n - 1] == MentionsOf(x)[..n - 1] && ss[n - 1] == MentionOf(x, x.entities[n - 1]);
      assert x.entities[..n] == x.entities[..n - 1] + [x.entities[n - 1]];
    }
  }

  /** The edges after an upsert: every extracted entity is mentioned, with this chunk and the
      confidence the mention had, 1.0 if none; an edge between entities that this extraction names
      belongs to this document with the confidence named last, every other one is as it was. */
  lemma EdgesAfter(g: Graph, x: Extraction, e: Entity, k: RelKey)
    requires e in x.entities
    ensures var after, m, last := Run(g, StatementsOf(x)), MentionKey(x.doc, KeyOf(x, e)), LastSet(x, x.relations, k);
            && x.doc in after.docs && after.docs[x.doc] == x.props
            && m in after.mentions && after.mentions[m].chunk == x.chunk
            && after.mentions[m].confidence ==
               Some(if m in g.mentions && g.mentions[m].confidence.Some? then g.mentions[m].confidence.value else 1.0)
            && (k in after.rels <==> k in g.rels || last.Some?)
            && (k in after.rels ==> after.rels[k] == if last.Some? then last.value else g.rels[k])
  {
    var first, mentions, rels := [MergeDocument(x.doc, x.props)], MentionsOf(x), RelsOf(x, x.relations);
    RunConcat(g, first + mentions, rels);
    RunConcat(g, first, mentions);
    assert first[..0] == [];
    var g1 := Run(g, first);
    MentionsAreSet(x, g1, |x.entities|, MentionKey(x.doc, KeyOf(x, e)));
    assert mentions[..|x.entities|] == mentions && x.entities[..|x.entities|] == x.entities;
    RelsAreSet(x, Run(g1, mentions), x.relations, k);
  }

  // ---------------------------------------------------------------- which way edges run

  /** The last entity of that name. */
  predicate LastNamed(es: seq<Entity>, name: string, a: nat) {
    a < |es| && es[a].name == name && forall j | a < j < |es| :: es[j].name != name
  }

  lemma {:induction false} TypeIsLast(es: seq<Entity>, name: string, a: nat)
    requires LastNamed(es, name, a)
    ensures TypeByName(es, name) == Some(es[a].entityType)
    decreases |es|
  {
    if a < |es| - 1 { TypeIsLast(es[..|es| - 1], name, a); }
  }

  lemma {:induction false} NamedLast(es: seq<Entity>, name: string) returns (a: nat)
    requires TypeByName(es, name).Some?
    ensures LastNamed(es, name, a)
    decreases |es|
  {
    if es[|es| - 1].name == name { a := |es| - 1; } else { a := NamedLast(es[..|es| - 1], name); }
  }

  /** The edge of a relation: from the entity named as its source to the one named as its target, each with the
      type it was given last. */
  predicate IsEdgeOf(x: Extraction, r: Relation, a: nat, b: nat, k: RelKey) {
    && LastNamed(x.entities, r.source, a) && LastNamed(x.entities, r.target, b)
    && k.source == EntityKey(x.doc.workspace, x.entities[a].entityType, r.source)
    && k.target == EntityKey(x.doc.workspace, x.entities[b].entityType, r.target)
    && k.relType == r.relType
  }

  lemma {:induction false} LastSetBy(x: Extraction, rs: seq<Relation>, i: nat, a: nat, b: nat, k: RelKey)
    requires i < |rs| && IsEdgeOf(x, rs[i], a, b, k)
    requires forall j | i < j < |rs| ::
               rs[j].source != rs[i].source || rs[j].target != rs[i].target || rs[j].relType != rs[i].relType
    ensures LastSet(x, rs, k) == Some(RelProps(x.doc.document, rs[i].confidence))
    decreases |rs|
  {
    TypeIsLast(x.entities, rs[i].source, a);
    TypeIsLast(x.entities, rs[i].target, b);
    if i < |rs| - 1 { LastSetBy(x, rs[..|rs| - 1], i, a, b, k); }
  }

  lemma {:induction false} SetByRelation(x: Extraction, rs: seq<Relation>, k: RelKey) returns (i: nat, a: nat, b: nat)
    requires LastSet(x, rs, k).Some?
    ensures i < |rs| && IsEdgeOf(x, rs[i], a, b, k)
    ensures LastSet(x, rs, k) == Some(RelProps(x.doc.document, rs[i].confidence))
    decreases |rs|
  {
    var r := rs[|rs| - 1];
    var s := RelOf(x, r);
    if s.Some? && s.value.rel == k {
      i := |rs| - 1;
      a := NamedLast(x.entities, r.source);
      b := NamedLast(x.entities, r.target);
      TypeIsLast(x.entities, r.source, a);
      TypeIsLast(x.entities, r.target, b);
    } else {
      i, a, b := SetByRelation(x, rs[..|rs| - 1], k);
    }
  }

  /** A relation both of whose ends were extracted gives an edge from its source to its target, with the document
      and the confidence of the last relation of that kind between them. */
  lemma RelationGivesEdge(g: Graph, x: Extraction, i: nat, a: nat, b: nat, k: RelKey)
    requires i < |x.relations| && IsEdgeOf(x, x.relations[i], a, b, k)
    requires forall j | i < j < |x.relations| ::
               x.relations[j].source != x.relations[i].source || x.relations[j].target != x.relations[i].target
               || x.relations[j].relType != x.relations[i].relType
    ensures var after := Run(g, StatementsOf(x));
            k in after.rels && after.rels[k] == RelProps(x.doc.document, x.relations[i].confidence)
  {
    LastSetBy(x, x.relations, i, a, b, k);
    RelsAfter(g, x, k);
  }

  lemma RelsAfter(g: Graph, x: Extraction, k: RelKey)
    ensures var after, last := Run(g, StatementsOf(x)), LastSet(x, x.relations, k);
            && (k in after.rels <==> k in g.rels || last.Some?)
            && (k in after.rels ==> after.rels[k] == if last.Some? then last.value else g.rels[k])
  {
    if x.entities != [] || x.relations != [] {
      var first, mentions, rels := [MergeDocument(x.doc, x.props)], MentionsOf(x), RelsOf(x, x.relations);
      RunConcat(g, first + mentions, rels);
      RunConcat(g, first, mentions);
      assert first[..0] == [];
      var g1 := Run(g, first);
      MentionsAreSet(x, g1, |x.entities|, MentionKey(x.doc, k.source));
      assert mentions[..|x.entities|] == mentions;
      RelsAreSet(x, Run(g1, mentions), x.relations, k);
    }
  }

  /** And no other edge is new or changed. */
  lemma EdgeComesFromRelation(g: Graph, x: Extraction, k: RelKey) returns (i: nat, a: nat, b: nat)
    requires var after := Run(g, StatementsOf(x)); k in after.rels && (k !in g.rels || after.rels[k] != g.rels[k])
    ensures i < |x.relations| && IsEdgeOf(x, x.relations[i], a, b, k)
    ensures Run(g, StatementsOf(x)).rels[k] == RelProps(x.doc.document, x.relations[i].confidence)
  {
    RelsAfter(g, x, k);
    i, a, b := SetByRelation(x, x.relations, k);
  }

  // ---------------------------------------------------------------- restarts

  function DocKeys(ss: seq<Statement>): set<DocKey> {
    set s | s in ss && s.MergeDocument? :: s.doc
  }

  function MentionKeys(ss: seq<Statement>): set<MentionKey> {
    set s | s in ss && s.MergeMention? :: s.mention
  }

  function RelKeys(ss: seq<Statement>): set<RelKey> {
    set s | s in ss && s.MergeRel? :: s.rel
  }

  function Ends(s: Statement): set<EntityKey> {
    match s
    case MergeDocument(_, _) => {}
    case MergeMention(m, _) => {m.entity}
    case MergeRel(rel, _) => {rel.source, rel.target}
  }

  function EntityKeys(ss: seq<Statement>): set<EntityKey> {
    set s, e | s in ss && e in Ends(s) :: e
  }

  ghost predicate SameBut<K(!new), V>(a: map<K, V>, b: map<K, V>, except: set<K>) {
    forall k: K | k !in except :: (k in a <==> k in b) && (k in a ==> a[k] == b[k])
  }

  /** The same graphs except at these keys. */
  ghost predicate Alike(a: Graph, b: Graph, docs: set<DocKey>, entities: set<EntityKey>, mentions: set<MentionKey>,
                        rels: set<RelKey>)
  {
    && SameBut(a.docs, b.docs, docs) && (forall e: EntityKey | e !in entities :: e in a.entities <==> e in b.entities)
    && SameBut(a.mentions, b.mentions, mentions) && SameBut(a.rels, b.rels, rels)
  }

  /** The same graphs except for what `before` wrote and `after` did not write again. */
  ghost predicate AlikeBut(a: Graph, b: Graph, before: seq<Statement>, after: seq<Statement>) {
    Alike(a, b, DocKeys(before) - DocKeys(after), EntityKeys(before) - EntityKeys(after),
          MentionKeys(before) - MentionKeys(after), RelKeys(before) - RelKeys(after))
  }

  lemma KeysSnoc(ss: seq<Statement>, s: Statement)
    ensures DocKeys(ss + [s]) == DocKeys(ss) + (if s.MergeDocument? then {s.doc} else {})
    ensures MentionKeys(ss + [s]) == MentionKeys(ss) + (if s.MergeMention? then {s.mention} else {})
    ensures RelKeys(ss + [s]) == RelKeys(ss) + (if s.MergeRel? then {s.rel} else {})
    ensures EntityKeys(ss + [s]) == EntityKeys(ss) + Ends(s)
  {
  }

  /** A run changes only what it names, and no confidence. */
  lemma {:induction false} RunFrame(g: Graph, ss: seq<Statement>)
    ensures AlikeBut(Run(g, ss), g, ss, []) && g.docs.Keys <= Run(g, ss).docs.Keys
    ensures forall m: MentionKey :: Confidence(Run(g, ss), m) == Confidence(g, m)
    decreases |ss|
  {
    if ss != [] {
      var front, s := ss[..|ss| - 1], ss[|ss| - 1];
      assert ss == front + [s];
      RunFrame(g, front);
      KeysSnoc(front, s);
    }
  }

  /** Statements that start with their document and mention no other. */
  predicate Anchored(ss: seq<Statement>) {
    ss == [] || (ss[0].MergeDocument? && forall s | s in ss && s.MergeMention? :: s.mention.doc == ss[0].doc)
  }

  lemma ApplyAlike(a: Graph, b: Graph, s: Statement, earlier: seq<Statement>, done: seq<Statement>)
    requires AlikeBut(a, b, earlier, done)
    requires s.MergeMention? ==>
             s.mention.doc in a.docs && s.mention.doc in b.docs && Confidence(a, s.mention) == Confidence(b, s.mention)
    ensures AlikeBut(Apply(a, s), Apply(b, s), earlier, done + [s])
  {
    KeysSnoc(done, s);
  }

  lemma {:induction false} RunAlike(g: Graph, earlier: seq<Statement>, ss: seq<Statement>, n: nat)
    requires n <= |ss| && Anchored(ss)
    ensures AlikeBut(Run(Run(g, earlier), ss[..n]), Run(g, ss[..n]), earlier, ss[..n])
    decreases n
  {
    if n == 0 { RunFrame(g, earlier); }
    else {
      var done, s := ss[..n - 1], ss[n - 1];
      assert ss[..n] == done + [s];
      RunAlike(g, earlier, ss, n - 1);
      RunFrame(Run(g, earlier), done);
      RunFrame(g, done);
      RunFrame(g, earlier);
      if n > 1 {
        AnchorStays(Run(g, earlier), done);
        AnchorStays(g, done);
      }
      ApplyAlike(Run(Run(g, earlier), done), Run(g, done), s, earlier, done);
    }
  }

  lemma {:induction false} AnchorStays(g: Graph, ss: seq<Statement>)
    requires ss != [] && ss[0].MergeDocument?
    ensures ss[0].doc in Run(g, ss).docs
    decreases |ss|
  {
    if |ss| > 1 { AnchorStays(g, ss[..|ss| - 1]); } else { assert ss[..0] == []; }
  }

  lemma UpsertIsAnchored(x: Extraction)
    ensures Anchored(StatementsOf(x))
  {
    RelsLinkExtracted(x, x.relations);
  }

  /** An upsert after whatever statements came before differs from the upsert alone only at keys
      that those wrote and it does not write again. */
  lemma OnlyStaleDiffers(g: Graph, earlier: seq<Statement>, x: Extraction)
    ensures AlikeBut(Run(Run(g, earlier), StatementsOf(x)), Run(g, StatementsOf(x)), earlier, StatementsOf(x))
  {
    UpsertIsAnchored(x);
    var ss := StatementsOf(x);
    RunAlike(g, earlier, ss, |ss|);
    assert ss[..|ss|] == ss;
  }

  // ---------------------------------------------------------------- attempts

  /** An attempt that broke off after `cut` statements. */
  datatype Attempt = Attempt(extraction: Extraction, cut: nat)

  function Left(a: Attempt): seq<Statement> {
    StatementsOf(a.extraction)[..Min(a.cut, |StatementsOf(a.extraction)|)]
  }

  function AfterAll(g: Graph, attempts: seq<Attempt>): Graph {
    if attempts == [] then g else Run(AfterAll(g, attempts[..|attempts| - 1]), Left(attempts[|attempts| - 1]))
  }

  /** The same document, entities and relations; chunk, tags, name and source may differ. */
  predicate SameFindings(x: Extraction, y: Extraction) {
    x.doc == y.doc && x.entities == y.entities && x.relations == y.relations
  }

  predicate Covered(ss: seq<Statement>, whole: seq<Statement>) {
    && DocKeys(ss) <= DocKeys(whole) && EntityKeys(ss) <= EntityKeys(whole)
    && MentionKeys(ss) <= MentionKeys(whole) && RelKeys(ss) <= RelKeys(whole)
  }

  lemma {:induction false} SameRels(x: Extraction, y: Extraction, rs: seq<Relation>)
    requires SameFindings(x, y)
    ensures RelsOf(x, rs) == RelsOf(y, rs)
    decreases |rs|
  {
    if rs != [] { SameRels(x, y, rs[..|rs| - 1]); }
  }

  /** Statements that differ only in the values they set. */
  predicate SameTarget(s: Statement, t: Statement) {
    match s
    case MergeDocument(d, _) => t.MergeDocument? && t.doc == d
    case MergeMention(m, _) => t.MergeMention? && t.mention == m
    case MergeRel(_, _) => t == s
  }

  lemma SameTargets(x: Extraction, y: Extraction)
    requires SameFindings(x, y)
    ensures |StatementsOf(x)| == |StatementsOf(y)|
    ensures forall i | 0 <= i < |StatementsOf(x)| :: SameTarget(StatementsOf(x)[i], StatementsOf(y)[i])
  {
    SameRels(x, y, x.relations);
    RelsLinkExtracted(x, x.relations);
  }

  lemma CutIsCovered(a: Attempt, x: Extraction)
    requires SameFindings(a.extraction, x)
    ensures Covered(Left(a), StatementsOf(x))
  {
    SameTargets(a.extraction, x);
    var ss, whole := StatementsOf(a.extraction), StatementsOf(x);
    forall s | s in Left(a) ensures exists t | t in whole :: SameTarget(s, t) && Ends(s) == Ends(t) {
      var i :| 0 <= i < |Left(a)| && Left(a)[i] == s;
      assert ss[i] == s && whole[i] in whole;
    }
    forall e | e in EntityKeys(Left(a)) ensures e in EntityKeys(whole) {
      var s :| s in Left(a) && e in Ends(s);
      var t :| t in whole && SameTarget(s, t) && Ends(s) == Ends(t);
    }
  }

  lemma CoveredConcat(a: seq<Statement>, b: seq<Statement>, whole: seq<Statement>)
    requires Covered(a, whole) && Covered(b, whole)
    ensures Covered(a + b, whole)
  {
  }

  lemma {:induction false} AttemptsAreOneRun(g: Graph, attempts: seq<Attempt>, x: Extraction)
    returns (ss: seq<Statement>)
    requires forall a | a in attempts :: SameFindings(a.extraction, x)
    ensures AfterAll(g, attempts) == Run(g, ss) && Covered(ss, StatementsOf(x))
    decreases |attempts|
  {
    if attempts == [] { ss := []; }
    else {
      var last := attempts[|attempts| - 1];
      var front := AttemptsAreOneRun(g, attempts[..|attempts| - 1], x);
      ss := front + Left(last);
      RunConcat(g, front, Left(last));
      CutIsCovered(last, x);
      CoveredConcat(front, Left(last), StatementsOf(x));
    }
  }

  lemma CoveredIsSame(a: Graph, b: Graph, earlier: seq<Statement>, ss: seq<Statement>)
    requires AlikeBut(a, b, earlier, ss) && Covered(earlier, ss)
    ensures a == b
  {
    assert a.docs == b.docs;
    assert a.entities == b.entities;
    assert a.mentions == b.mentions;
    assert a.rels == b.rels;
  }

  /** Restart convergence: after any attempts with the same findings, each broken off anywhere and
      each with its own chunk and tags, one complete upsert leaves exactly the graph of a single
      clean one. */
  lemma RestartConverges(g: Graph, attempts: seq<Attempt>, x: Extraction)
    requires forall a | a in attempts :: SameFindings(a.extraction, x)
    ensures Run(AfterAll(g, attempts), StatementsOf(x)) == Run(g, StatementsOf(x))
  {
    var ss := AttemptsAreOneRun(g, attempts, x);
    OnlyStaleDiffers(g, ss, x);
    CoveredIsSame(Run(Run(g, ss), StatementsOf(x)), Run(g, StatementsOf(x)), ss, StatementsOf(x));
  }

  /** With other findings a restart keeps what it no longer finds: the graph has the nodes of both. */
  lemma StaleNodesStay(g: Graph, earlier: Extraction, x: Extraction)
    ensures Run(Run(g, StatementsOf(earlier)), StatementsOf(x)).entities ==
            g.entities + Extracted(earlier) + Extracted(x)
    ensures Run(Run(g, StatementsOf(earlier)), StatementsOf(x)).entities == Run(g, StatementsOf(x)).entities <==>
            Extracted(earlier) <= g.entities + Extracted(x)
  {
    NodesAfter(g, earlier);
    NodesAfter(Run(g, StatementsOf(earlier)), x);
    NodesAfter(g, x);
  }

  lemma {:induction false} KeysAfter(g: Graph, ss: seq<Statement>, n: nat)
    requires n <= |ss| && Anchored(ss)
    ensures var after := Run(g, ss[..n]);
            after.mentions.Keys == g.mentions.Keys + MentionKeys(ss[..n])
            && after.rels.Keys == g.rels.Keys + RelKeys(ss[..n])
    decreases n
  {
    if n > 0 {
      var done, s := ss[..n - 1], ss[n - 1];
      assert ss[..n] == done + [s];
      KeysAfter(g, ss, n - 1);
      KeysSnoc(done, s);
      RunSnoc(g, done, s);
      if n > 1 { AnchorStays(g, done); }
    }
  }

  /** And the edges of both: a restart with other findings keeps every mention and relation that was
      there or was found either time, and the edges are those of the restart alone exactly if the
      earlier ones were all there before or found again. */
  lemma StaleEdgesStay(g: Graph, earlier: Extraction, x: Extraction)
    ensures var before, now := StatementsOf(earlier), StatementsOf(x);
            var both, alone := Run(Run(g, before), now), Run(g, now);
            && both.mentions.Keys == g.mentions.Keys + MentionKeys(before) + MentionKeys(now)
            && both.rels.Keys == g.rels.Keys + RelKeys(before) + RelKeys(now)
            && (both.mentions.Keys == alone.mentions.Keys <==>
                MentionKeys(before) <= g.mentions.Keys + MentionKeys(now))
            && (both.rels.Keys == alone.rels.Keys <==> RelKeys(before) <= g.rels.Keys + RelKeys(now))
  {
    var before, now := StatementsOf(earlier), StatementsOf(x);
    UpsertIsAnchored(earlier);
    UpsertIsAnchored(x);
    KeysAfter(g, before, |before|);
    KeysAfter(Run(g, before), now, |now|);
    KeysAfter(g, now, |now|);
    assert before[..|before|] == before && now[..|now|] == now;
  }

  // ---------------------------------------------------------------- the code

  class GraphStore {
    var graph: Graph

    constructor ()
      ensures graph == Graph(map[], {}, map[], map[])
    {
      graph := Graph(map[], {}, map[], map[]);
    }

    /** `upsert_graph`, when the driver fails on statement number `works`, if there are as many. The
        failure is logged and swallowed. */
    method UpsertGraph(x: Extraction, works: nat)
      modifies this
      ensures graph == Run(old(graph), Left(Attempt(x, works)))
    {
      if (x.entities == [] && x.relations == []) || works == 0 { return; }
      ghost var all := StatementsOf(x);
      ghost var before := graph;
      assert all[..1] == [all[0]] && all[..1][..0] == [];
      graph := Apply(graph, MergeDocument(x.doc, x.props));
      var issued := IssueMentions(x, works, before);
      if issued == 1 + |x.entities| { IssueRelations(x, works, before, all, issued); }
    }

    /** The loop over the entities, behind the document's own statement. */
    method IssueMentions(x: Extraction, works: nat, ghost before: Graph) returns (issued: nat)
      requires works >= 1 && StatementsOf(x) != [] && graph == Run(before, StatementsOf(x)[..1])
      modifies this
      ensures issued == Min(works, 1 + |x.entities|) && issued <= |StatementsOf(x)|
              && graph == Run(before, StatementsOf(x)[..issued])
    {
      issued := 1;
      var i := 0;
      while i < |x.entities|
        invariant 0 <= i <= |x.entities| && issued == 1 + i && issued <= works && issued <= |StatementsOf(x)|
        invariant graph == Run(before, StatementsOf(x)[..issued])
      {
        if issued == works { return; }
        MentionIssued(before, x, i);
        graph := Apply(graph, MentionOf(x, x.entities[i]));
        issued, i := issued + 1, i + 1;
      }
    }

    /** The loop over the relations, whose statements follow the first `issued`. */
    method IssueRelations(x: Extraction, works: nat, ghost before: Graph, ghost all: seq<Statement>, skip: nat)
      requires skip <= |all| && all[skip..] == RelsOf(x, x.relations) && skip <= works
               && graph == Run(before, all[..skip])
      modifies this
      ensures graph == Run(before, all[..Min(works, |all|)])
    {
      var issued := skip;
      var i := 0;
      while i < |x.relations|
        invariant 0 <= i <= |x.relations| && issued == skip + |RelsOf(x, x.relations[..i])| && issued <= works
                  && issued <= |all|
        invariant graph == Run(before, all[..issued])
      {
        var s := RelOf(x, x.relations[i]);
        ghost var next := RelationTurn(x, all, skip, i, issued, before, s);
        if s.Some? {
          if issued == works { return; }
          graph := Apply(graph, s.value);
          issued := issued + 1;
        }
        i := i + 1;
      }
      assert x.relations[..i] == x.relations;
    }
  }

  /** A relation adds one statement or none to those issued. */
  lemma RelationTurn(x: Extraction, all: seq<Statement>, skip: nat, i: nat, issued: nat, before: Graph,
                     s: Option<Statement>)
    returns (next: nat)
    requires skip <= |all| && all[skip..] == RelsOf(x, x.relations) && i < |x.relations|
             && s == RelOf(x, x.relations[i])
    requires issued == skip + |RelsOf(x, x.relations[..i])|
    ensures next == issued + (if s.Some? then 1 else 0) == skip + |RelsOf(x, x.relations[..i + 1])| && next <= |all|
    ensures s.Some? ==> Run(before, all[..next]) == Apply(Run(before, all[..issued]), s.value)
  {
    RelsPrefix(x, x.relations, i);
    next := skip + |RelsOf(x, x.relations[..i + 1])|;
    if s.Some? {
      assert all[issued] == all[skip..][issued - skip];
      RunNext(before, all, issued);
    }
  }

  lemma RunNext(g: Graph, ss: seq<Statement>, n: nat)
    requires n < |ss|
    ensures Run(g, ss[..n + 1]) == Apply(Run(g, ss[..n]), ss[n])
  {
    assert ss[..n + 1][..n] == ss[..n] && ss[..n + 1][n] == ss[n];
  }

  lemma MentionIssued(g: Graph, x: Extraction, i: nat)
    requires i < |x.entities|
    ensures 1 + i < |StatementsOf(x)|
    ensures Run(g, StatementsOf(x)[..1 + i + 1]) == Apply(Run(g, StatementsOf(x)[..1 + i]), MentionOf(x, x.entities[i]))
  {
    assert StatementsOf(x)[1 + i] == MentionsOf(x)[i];
    RunNext(g, StatementsOf(x), 1 + i);
  }

  lemma {:induction false} RelsPrefix(x: Extraction, rs: seq<Relation>, i: nat)
    requires i < |rs|
    ensures RelsOf(x, rs[..i + 1]) ==
            RelsOf(x, rs[..i]) + (if RelOf(x, rs[i]).Some? then [RelOf(x, rs[i]).value] else [])
    ensures RelsOf(x, rs[..i + 1]) <= RelsOf(x, rs)
    decreases |rs|
  {
    assert rs[..i + 1][..i] == rs[..i];
    if i + 1 < |rs| {
      RelsPrefix(x, rs[..|rs| - 1], i);
      assert rs[..|rs| - 1][..i] == rs[..i] && rs[..|rs| - 1][..i + 1] == rs[..i + 1];
    } else {
      assert rs[..i + 1] == rs;
    }
  }
}
