/** The contact form: field edits update the form object, and submitting
    posts it URL-encoded with the form's name first. The page's HTTP post is
    replaced by its `ok` flag and `encodeURIComponent` by a parameter. */
module Contact {
  import opened Strings

  /** A flat object of strings, in key insertion order. */
  type Fields = seq<(string, string)>

  predicate HasKey(fields: Fields, key: string) {
    exists i :: 0 <= i < |fields| && fields[i].0 == key
  }

  /** Object keys are distinct. */
  predicate DistinctKeys(fields: Fields) {
    forall i, j :: 0 <= i < j < |fields| ==> fields[i].0 != fields[j].0
  }

  const InitialForm: Fields := [("name", ""), ("email", ""), ("reason", ""), ("message", "")]
  const FormName: (string, string) := ("form-name", "contact")

  /** `{ ...fields, [key]: value }`: an existing key keeps its place and
      takes the new value, a new key goes last. */
  function Assign(fields: Fields, key: string, value: string): (r: Fields)
    requires DistinctKeys(fields)
    ensures DistinctKeys(r)
    ensures |r| == if HasKey(fields, key) then |fields| else |fields| + 1
    ensures forall i :: 0 <= i < |fields| ==> r[i] == if fields[i].0 == key then (key, value) else fields[i]
    ensures !HasKey(fields, key) ==> r[|fields|] == (key, value)
    decreases |fields|
  {
    if fields == [] then [(key, value)]
    else if fields[0].0 == key then [(key, value)] + fields[1..]
    else [fields[0]] + Assign(fields[1..], key, value)
  }

  /** `{ ...base, ...extra }`: each entry of `extra` assigned in order. */
  function Spread(base: Fields, extra: Fields): (r: Fields)
    requires DistinctKeys(base)
    ensures DistinctKeys(r)
    ensures |base| <= |r| <= |base| + |extra|
    ensures forall i :: 0 <= i < |base| ==> r[i].0 == base[i].0
    decreases |extra|
  {
    if extra == [] then base else Spread(Assign(base, extra[0].0, extra[0].1), extra[1..])
  }

  /** Spreading entries whose keys are new appends them. */
  lemma {:induction false} SpreadFresh(base: Fields, extra: Fields)
    requires DistinctKeys(base) && DistinctKeys(base + extra)
    ensures Spread(base, extra) == base + extra
    decreases |extra|
  {
    if extra != [] {
      assert !HasKey(base, extra[0].0) by {
        forall i | 0 <= i < |base| ensures base[i].0 != extra[0].0 {
          assert (base + extra)[i] == base[i] && (base + extra)[|base|] == extra[0];
        }
      }
      var next := Assign(base, extra[0].0, extra[0].1);
      assert next == base + [extra[0]];
      assert base + extra == next + extra[1..];
      SpreadFresh(next, extra[1..]);
    }
  }

  /** `encodeURIComponent(key) + "=" + encodeURIComponent(value)` for each entry. */
  function Pieces(fields: Fields, encode: string -> string): (r: seq<string>)
    ensures |r| == |fields|
    ensures forall k :: 0 <= k < |r| ==> r[k] == encode(fields[k].0) + "=" + encode(fields[k].1)
    ensures (forall s :: '&' !in encode(s)) ==> forall k :: 0 <= k < |r| ==> '&' !in r[k]
  {
    var r := seq(|fields|, i requires 0 <= i < |fields| => encode(fields[i].0) + "=" + encode(fields[i].1));
    assert (forall s :: '&' !in encode(s)) ==> forall k :: 0 <= k < |r| ==> '&' !in r[k] by {
      if forall s :: '&' !in encode(s) {
        forall k | 0 <= k < |r| ensures '&' !in r[k] {
          assert r[k] == encode(fields[k].0) + "=" + encode(fields[k].1);
        }
      }
    }
    r
  }

  /** The `encode` helper: the pieces joined with "&". */
  function Encode(fields: Fields, encode: string -> string): (r: string)
    ensures fields == [] ==> r == ""
  {
    Join(Pieces(fields, encode), "&")
  }

  /** How the receiving form host reads a URL-encoded body: split on "&",
      then each piece at its first "=", and decode both halves. */
  function Decode(body: string, decode: string -> string): (r: Fields)
    ensures |r| == |Split(body, "&")|
  {
    var parts := Split(body, "&");
    seq(|parts|, i requires 0 <= i < |parts| =>
      var kv := Split(parts[i], "=");
      (decode(kv[0]), decode(if |kv| >= 2 then kv[1] else "")))
  }

  /** `encodeURIComponent` escapes "&" and "=", so a non-empty object
      survives encoding and decoding unchanged. */
  lemma EncodeRoundTrip(fields: Fields, encode: string -> string, decode: string -> string)
    requires |fields| >= 1
    requires forall s :: '&' !in encode(s) && '=' !in encode(s)
    requires forall s :: decode(encode(s)) == s
    ensures Decode(Encode(fields, encode), decode) == fields
  {
    var pieces := Pieces(fields, encode);
    SplitJoin(pieces, '&');
    forall i | 0 <= i < |fields|
      ensures Split(pieces[i], "=") == [encode(fields[i].0), encode(fields[i].1)]
    {
      var k, v := encode(fields[i].0), encode(fields[i].1);
      assert pieces[i] == k + ['='] + v;
      SplitAfterFirst(k, '=', v);
      SplitAbsent(v, '=');
    }
  }

  /** With no "form-name" field of its own, the submitted object is the
      form's name followed by the form's fields in order. */
  lemma FormNameFirst(form: Fields)
    requires DistinctKeys(form) && !HasKey(form, FormName.0)
    ensures Spread([FormName], form) == [FormName] + form
  {
    assert DistinctKeys([FormName] + form) by {
      forall i, j | 0 <= i < j < |[FormName] + form|
        ensures ([FormName] + form)[i].0 != ([FormName] + form)[j].0
      {
        if i == 0 { assert ([FormName] + form)[j] == form[j - 1]; }
      }
    }
    SpreadFresh([FormName], form);
  }

  class ContactForm {
    var form: Fields
    var messageSent: bool

    ghost predicate Valid()
      reads this
    {
      DistinctKeys(form)
    }

    constructor ()
      ensures Valid() && form == InitialForm && !messageSent
    {
      form := InitialForm;
      messageSent := false;
    }

    /** `handleChange`: the edited control's id names the field to set. */
    method HandleChange(id: string, value: string)
      requires Valid()
      modifies this
      ensures Valid() && messageSent == old(messageSent)
      ensures form == Assign(old(form), id, value)
      ensures HasKey(old(form), id) ==> |form| == |old(form)|
      ensures id != FormName.0 && !HasKey(old(form), FormName.0) ==> !HasKey(form, FormName.0)
    {
      form := Assign(form, id, value);
    }

    /** `handleSubmit`: posts the encoded form, with the form's name first,
        and shows the confirmation only when the post succeeds. Returns the
        request body. */
    method HandleSubmit(encode: string -> string, ok: bool) returns (body: string)
      requires Valid()
      modifies this
      ensures Valid() && form == old(form)
      ensures body == Encode(Spread([FormName], form), encode)
      ensures !HasKey(form, FormName.0) ==> body == Encode([FormName] + form, encode)
      ensures messageSent == (old(messageSent) || ok)
    {
      if !HasKey(form, FormName.0) {
        FormNameFirst(form);
      }
      body := Encode(Spread([FormName], form), encode);
      if ok {
        messageSent := true;
      }
    }
  }
}
