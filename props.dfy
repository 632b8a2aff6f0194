/** The user property store of the add-on (API tokens and ids kept per user) and
    the check that every stored property has a value. */
module Props {
  import opened Values

  /** JavaScript truthiness of a string: only '' is falsy. */
  predicate Truthy(s: string)
  {
    s != ""
  }

  /** A stored value passes the check of isValid: truthy and of positive length. */
  predicate Filled(value: string)
  {
    Truthy(value) && |value| > 0
  }

  /** Every stored property passes the check. */
  ghost predicate AllFilled(properties: map<string, string>)
  {
    forall key :: key in properties ==> Filled(properties[key])
  }

  /** An empty store is valid. */
  lemma EmptyIsValid()
    ensures AllFilled(map[])
  {
  }

  /** One empty value makes the store invalid whatever the other keys hold, and
      a store is valid again once that key gets a non-empty value. */
  lemma OneEmptyInvalidates(properties: map<string, string>, key: string, value: string)
    ensures !AllFilled(properties[key := ""])
    ensures AllFilled(properties) && value != "" ==> AllFilled(properties[key := value])
  {
    assert properties[key := ""][key] == "";
  }

  /** The user property store: a string -> string map that isValid reads. */
  class UserProperties {
    var properties: map<string, string>

    constructor (initial: map<string, string>)
      ensures properties == initial
    {
      properties := initial;
    }

    /** Props.getAll: a copy of the whole store. */
    method GetAll() returns (all: map<string, string>)
      ensures all == properties
    {
      all := properties;
    }

    /** Props.isValid: every over the stored keys, stopping at the first value
        that is falsy or empty. It only reads the store. */
    method IsValid() returns (valid: bool)
      ensures valid <==> AllFilled(properties)
      ensures valid <==> forall key :: key in properties ==> properties[key] != ""
    {
      var all := GetAll();
      var unchecked := all.Keys;
      while unchecked != {}
        invariant unchecked <= all.Keys
        invariant forall key :: key in all && key !in unchecked ==> Filled(all[key])
        decreases |unchecked|
      {
        ghost var some := Pick(unchecked);
        var key :| key in unchecked;
        if !Filled(all[key]) {
          return false;
        }
        unchecked := unchecked - {key};
      }
      return true;
    }
  }
}
