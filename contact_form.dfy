/**
 * The four-field record both contact forms keep, and the keyed update their
 * `handleInputChange` performs (`{ ...prev, [name]: value }`).
 */
module ContactForm {

  /** The `name` attributes of the form's inputs. */
  datatype Field = Name | Email | Subject | Message

  datatype FormData = FormData(name: string, email: string, subject: string, message: string) {

    function Get(f: Field): string {
      match f
      case Name => name
      case Email => email
      case Subject => subject
      case Message => message
    }

    /** The record with field `f` replaced by `v`: the object spread with a computed key. */
    function With(f: Field, v: string): (d: FormData)
      ensures d.Get(f) == v
      ensures forall g :: g != f ==> d.Get(g) == Get(g)
    {
      match f
      case Name => this.(name := v)
      case Email => this.(email := v)
      case Subject => this.(subject := v)
      case Message => this.(message := v)
    }
  }

  /** The initial record, and the one both forms reset to. */
  const Empty := FormData("", "", "", "")

  /**
   * Two records that agree on every field are equal, so `With` changes the
   * named field and nothing else: writing back the old value is the identity.
   */
  lemma WithSameValue(d: FormData, f: Field)
    ensures d.With(f, d.Get(f)) == d
  {
    var e := d.With(f, d.Get(f));
    assert e.Get(Name) == d.Get(Name) && e.Get(Email) == d.Get(Email);
    assert e.Get(Subject) == d.Get(Subject) && e.Get(Message) == d.Get(Message);
  }

  /** The last write to a field wins. */
  lemma WithOverwrite(d: FormData, f: Field, v: string, w: string)
    ensures d.With(f, v).With(f, w) == d.With(f, w)
  {
    var a, b := d.With(f, v).With(f, w), d.With(f, w);
    assert a.Get(Name) == b.Get(Name) && a.Get(Email) == b.Get(Email);
    assert a.Get(Subject) == b.Get(Subject) && a.Get(Message) == b.Get(Message);
  }

  /** Writes to different fields commute. */
  lemma WithCommute(d: FormData, f: Field, v: string, g: Field, w: string)
    requires f != g
    ensures d.With(f, v).With(g, w) == d.With(g, w).With(f, v)
  {
    var a, b := d.With(f, v).With(g, w), d.With(g, w).With(f, v);
    assert a.Get(Name) == b.Get(Name) && a.Get(Email) == b.Get(Email);
    assert a.Get(Subject) == b.Get(Subject) && a.Get(Message) == b.Get(Message);
  }

  /** Typing each field once into the empty form gives exactly the typed record. */
  lemma FillIn(d: FormData)
    ensures Empty.With(Name, d.name).With(Email, d.email).With(Subject, d.subject).With(Message, d.message) == d
  {
  }
}
