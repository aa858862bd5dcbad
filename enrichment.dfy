/**
 * The enrichment gate and merge policy of `enhanceMetadataWithGPT`.
 *
 * The language-model call and `JSON.parse` are abstracted as an optional
 * structured reply: `None` stands for a failed call or a reply that did not
 * parse, `Some(g)` for the parsed object, with a JSON `null` or a missing
 * member as `None` in the corresponding field.
 */
module Enrichment {
  import opened Wrappers
  import opened Metadata

  /** The example key shipped in the environment template; it counts as "no key". */
  const PlaceholderKey: string := "your_openai_api_key_here"

  /** The parsed reply of the model: the four fields it was asked for. */
  datatype GptReply = GptReply(
    description: Option<string>,
    author: Option<string>,
    publisher: Option<string>,
    lang: Option<string>)
  {
    /** The reply's value for an enrichable field. */
    function Candidate(f: Field): Option<string>
      requires Enrichable(f)
    {
      match f
      case Description => description
      case Author => author
      case Publisher => publisher
      case Lang => lang
      case _ => None
    }
  }

  /** A usable API key is configured: truthy and not the placeholder. */
  predicate KeyConfigured(key: Option<string>) {
    Truthy(key) && key.value != PlaceholderKey
  }

  /** The backend is consulted only with a usable key and while the description is falsy. */
  predicate GateOpen(key: Option<string>, existing: Record) {
    KeyConfigured(key) && !Truthy(existing.description)
  }

  /** A reply value is taken only when it is truthy and not the string "null". */
  predicate Adoptable(v: Option<string>) {
    Truthy(v) && v.value != "null"
  }

  /** One guarded assignment of the merge: fill a falsy field from an adoptable value. */
  function Fill(current: Option<string>, candidate: Option<string>): Option<string> {
    if !Truthy(current) && Adoptable(candidate) then candidate else current
  }

  /** The record `enhanceMetadataWithGPT` resolves to, given the key and the backend's reply. */
  function Enhanced(key: Option<string>, existing: Record, reply: Option<GptReply>): (r: Record)
    ensures !GateOpen(key, existing) ==> r == existing
    ensures reply.None? ==> r == existing
    ensures forall f :: !Enrichable(f) ==> r.Get(f) == existing.Get(f)
    ensures forall f :: Truthy(existing.Get(f)) ==> r.Get(f) == existing.Get(f)
    ensures forall f :: r.Get(f) != existing.Get(f) ==>
              GateOpen(key, existing) && reply.Some? && Enrichable(f) &&
              Adoptable(reply.value.Candidate(f)) && r.Get(f) == reply.value.Candidate(f)
    ensures GateOpen(key, existing) && reply.Some? ==>
              forall f :: Enrichable(f) && !Truthy(existing.Get(f)) && Adoptable(reply.value.Candidate(f)) ==>
                r.Get(f) == reply.value.Candidate(f)
  {
    if !GateOpen(key, existing) || reply.None? then existing
    else
      var g := reply.value;
      existing.(
        description := Fill(existing.description, g.description),
        author := Fill(existing.author, g.author),
        publisher := Fill(existing.publisher, g.publisher),
        lang := Fill(existing.lang, g.lang))
  }

  /**
   * The steps of `enhanceMetadataWithGPT`: the two early returns, the call, the
   * copy of the record and the four guarded assignments. `reply` is what the
   * backend would answer; `invoked` reports whether the backend was called.
   */
  method EnhanceMetadata(key: Option<string>, existing: Record, reply: Option<GptReply>)
    returns (enhanced: Record, invoked: bool)
    ensures invoked <==> GateOpen(key, existing)
    ensures enhanced == Enhanced(key, existing, reply)
  {
    if !Truthy(key) || key.value == PlaceholderKey {
      return existing, false;
    }
    if Truthy(existing.description) {
      return existing, false;
    }
    invoked := true;
    if reply.None? {
      // the call failed or the reply did not parse: the catch returns the input
      return existing, invoked;
    }
    var g := reply.value;
    enhanced := existing;
    if !Truthy(enhanced.description) && Truthy(g.description) && g.description.value != "null" {
      enhanced := enhanced.(description := g.description);
    }
    if !Truthy(enhanced.author) && Truthy(g.author) && g.author.value != "null" {
      enhanced := enhanced.(author := g.author);
    }
    if !Truthy(enhanced.publisher) && Truthy(g.publisher) && g.publisher.value != "null" {
      enhanced := enhanced.(publisher := g.publisher);
    }
    if !Truthy(enhanced.lang) && Truthy(g.lang) && g.lang.value != "null" {
      enhanced := enhanced.(lang := g.lang);
    }
  }

  /** A record whose four enrichable fields are all present comes back unchanged, whatever the reply. */
  lemma {:induction false} CompleteRecordUnchanged(key: Option<string>, existing: Record, reply: Option<GptReply>)
    requires forall f :: Enrichable(f) ==> Truthy(existing.Get(f))
    ensures Enhanced(key, existing, reply) == existing
  {
    var r := Enhanced(key, existing, reply);
    forall f ensures r.Get(f) == existing.Get(f) {
      if Enrichable(f) {
        assert Truthy(existing.Get(f));
      }
    }
    RecordExtensional(r, existing);
  }

  /** Enriching the enriched record again with the same reply changes nothing. */
  lemma {:induction false} EnhanceIdempotent(key: Option<string>, existing: Record, reply: Option<GptReply>)
    ensures Enhanced(key, Enhanced(key, existing, reply), reply) == Enhanced(key, existing, reply)
  {
    // a second pass could only fill a field that is still falsy from an adoptable
    // value, and the first pass already took every such value
  }

  /** The value a field ends with depends on the reply only when that field was falsy. */
  lemma {:induction false} PresentFieldIgnoresReply(key: Option<string>, existing: Record, reply1: Option<GptReply>, reply2: Option<GptReply>, f: Field)
    requires Truthy(existing.Get(f)) || !Enrichable(f)
    ensures Enhanced(key, existing, reply1).Get(f) == Enhanced(key, existing, reply2).Get(f)
  {
  }
}
