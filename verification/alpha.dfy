/** `Alpha<SIZE>`: a fixed number of characters, checked against ISO 8859-1. */
module AlphaType {
  import opened DataFeedErrors

  /** The width SIZE is the length of `value`; message fields use the subset types below. */
  datatype Alpha = Alpha(value: seq<char>)

  type Alpha1 = a: Alpha | |a.value| == 1 witness Alpha([' '])
  type Alpha3 = a: Alpha | |a.value| == 3 witness Alpha("   ")
  type Alpha7 = a: Alpha | |a.value| == 7 witness Alpha("       ")
  type Alpha12 = a: Alpha | |a.value| == 12 witness Alpha("            ")
  type Alpha20 = a: Alpha | |a.value| == 20 witness Alpha("                    ")
  type Alpha32 = a: Alpha | |a.value| == 32 witness Alpha("                                ")

  /**
   * The character test of `validate`: the code point is first cast to `u16`,
   * which keeps its low 16 bits, and that must be at most 0xFF.
   */
  predicate PassesLatin1Check(c: char) {
    (c as int) % 0x1_0000 <= 0xFF
  }

  /** The scan of `validate`: the first character, left to right, that fails the test. */
  function ValidateChars(s: seq<char>): (r: Result<()>)
    ensures r.Ok? <==> forall i :: 0 <= i < |s| ==> PassesLatin1Check(s[i])
    ensures r.Err? ==> exists k :: 0 <= k < |s| && !PassesLatin1Check(s[k]) &&
                                   (forall j :: 0 <= j < k ==> PassesLatin1Check(s[j])) &&
                                   r.error == NonISO88591Value(s[k])
  {
    if s == [] then Ok(())
    else if !PassesLatin1Check(s[0]) then Err(NonISO88591Value(s[0]))
    else
      var r := ValidateChars(s[1..]);
      if r.Err? then
        ghost var k :| 0 <= k < |s[1..]| && !PassesLatin1Check(s[1..][k]) &&
                       (forall j :: 0 <= j < k ==> PassesLatin1Check(s[1..][j])) &&
                       r.error == NonISO88591Value(s[1..][k]);
        assert !PassesLatin1Check(s[k + 1]) && forall j :: 0 <= j < k + 1 ==> PassesLatin1Check(s[j]);
        r
      else
        r
  }

  /** `Alpha::validate`. */
  function Validate(a: Alpha): (r: Result<()>)
    ensures r.Ok? <==> forall i :: 0 <= i < |a.value| ==> PassesLatin1Check(a.value[i])
    ensures r.Err? ==> exists k :: 0 <= k < |a.value| && !PassesLatin1Check(a.value[k]) &&
                                   (forall j :: 0 <= j < k ==> PassesLatin1Check(a.value[j])) &&
                                   r.error == NonISO88591Value(a.value[k])
  {
    ValidateChars(a.value)
  }

  /** `Alpha::new`: build the value, then validate it. */
  function New(value: seq<char>): (r: Result<Alpha>)
    ensures r.Ok? <==> forall i :: 0 <= i < |value| ==> PassesLatin1Check(value[i])
    ensures r.Ok? ==> r.value == Alpha(value)
    ensures r.Err? ==> r.error == Validate(Alpha(value)).error
  {
    var alpha := Alpha(value);
    var _ :- Validate(alpha);
    Ok(alpha)
  }

  /** Every Latin-1 character passes, control characters below 0x20 included. */
  lemma Latin1Accepted(c: char)
    requires c as int <= 0xFF
    ensures Validate(Alpha([c])).Ok?
  {
  }

  /**
   * Because of the `u16` cast, characters outside the Basic Multilingual
   * Plane whose low 16 bits are at most 0xFF are accepted too.
   */
  lemma TruncationAcceptsAstral()
    ensures New(['\U{10041}']) == Ok(Alpha(['\U{10041}']))
    ensures New(['Ā']) == Err(NonISO88591Value('Ā'))
  {
  }

  /** The error names the first offending character, not a later one. */
  lemma FirstOffenderReported()
    ensures New(['A', 'Ā', 'Ȁ']) == Err(NonISO88591Value('Ā'))
  {
    assert !PassesLatin1Check('Ā');
  }
}
