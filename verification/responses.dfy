/**
 What a handler sends back: the record it read or wrote, or one of four failures,
 each with the status code and the plain-text message the registry replies with.
 */
module Responses {
  import opened Gadgets

  datatype Failure =
    | NotFound(id: string)       // get, rent and return on an absent id
    | NotAvailable(id: string)   // rent on a gadget that is already rented
    | NotRented(id: string)      // return on a gadget that is not rented
    | NotDeleted(id: string)     // delete on an absent id

  datatype Outcome = Ok(gadget: Gadget) | Err(failure: Failure)

  /** Only a lookup by get, rent or return answers 404; every other failure is a 400. */
  function Status(f: Failure): (code: nat)
    ensures code == 404 <==> f.NotFound?
    ensures code == 400 <==> !f.NotFound?
  {
    if f.NotFound? then 404 else 400
  }

  function Suffix(f: Failure): string {
    match f
    case NotFound(_) => " not found"
    case NotAvailable(_) => " is not available"
    case NotRented(_) => " is not rented"
    case NotDeleted(_) => " not found"
  }

  /** The reply text names the gadget's id. */
  function Message(f: Failure): (text: string)
    ensures |text| > |f.id| + 15
    ensures text[..15] == "Gadget with id=" && text[15..15 + |f.id|] == f.id
  {
    "Gadget with id=" + f.id + Suffix(f)
  }

  /**
   The status code and the message together identify the failure and the id it
   names: no two failures produce the same reply.
   */
  lemma ReplyIdentifiesFailure(f: Failure, g: Failure)
    requires Status(f) == Status(g) && Message(f) == Message(g)
    ensures f == g
  {
    var s, t := Suffix(f), Suffix(g);
    var x, y := f.id + s, g.id + t;
    DropPrefix("Gadget with id=", f.id, s);
    DropPrefix("Gadget with id=", g.id, t);
    assert x == y;
    // The suffixes differ in their last two letters, except the two " not found".
    assert x[|x| - 1] == s[|s| - 1] && x[|x| - 2] == s[|s| - 2];
    assert y[|y| - 1] == t[|t| - 1] && y[|y| - 2] == t[|t| - 2];
    assert s == t;
    assert f.id == x[..|x| - |s|];
    assert g.id == y[..|y| - |t|];
  }

  /** A delete on an absent id and a lookup of an absent id share their text and differ only in their status. */
  lemma DeleteAndLookupShareText(id: string)
    ensures Message(NotFound(id)) == Message(NotDeleted(id))
    ensures Status(NotFound(id)) != Status(NotDeleted(id))
  {
  }

  lemma DropPrefix(p: string, a: string, b: string)
    ensures (p + a + b)[|p|..] == a + b
  {
    assert p + a + b == p + (a + b);
  }
}
