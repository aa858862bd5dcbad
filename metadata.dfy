/**
 * The metadata record that the extractor produces and the enrichment step
 * completes: nine optional string fields. JavaScript truthiness is kept
 * explicit: a field is "present" only when it holds a non-empty string.
 */
module Metadata {
  import opened Wrappers

  /** JavaScript truthiness of a string-or-nothing value: `undefined`, `null` and `""` are falsy. */
  predicate Truthy(v: Option<string>) {
    v.Some? && v.value != ""
  }

  /** The fields of a metadata record, in the order the response lists them. */
  datatype Field = Lang | Author | Title | Description | Publisher | Image | Logo | Url | Date

  /** The four fields the language-model fallback may fill. */
  predicate Enrichable(f: Field) {
    f.Description? || f.Author? || f.Publisher? || f.Lang?
  }

  datatype Record = Record(
    lang: Option<string>,
    author: Option<string>,
    title: Option<string>,
    description: Option<string>,
    publisher: Option<string>,
    image: Option<string>,
    logo: Option<string>,
    url: Option<string>,
    date: Option<string>)
  {
    /** The value of field `f`. */
    function Get(f: Field): Option<string> {
      match f
      case Lang => lang
      case Author => author
      case Title => title
      case Description => description
      case Publisher => publisher
      case Image => image
      case Logo => logo
      case Url => url
      case Date => date
    }
  }

  /** Two records with the same value in every field are the same record. */
  lemma {:induction false} RecordExtensional(a: Record, b: Record)
    requires forall f :: a.Get(f) == b.Get(f)
    ensures a == b
  {
    assert a.Get(Lang) == b.Get(Lang) && a.Get(Author) == b.Get(Author);
    assert a.Get(Title) == b.Get(Title) && a.Get(Description) == b.Get(Description);
    assert a.Get(Publisher) == b.Get(Publisher) && a.Get(Image) == b.Get(Image);
    assert a.Get(Logo) == b.Get(Logo) && a.Get(Url) == b.Get(Url) && a.Get(Date) == b.Get(Date);
  }
}
