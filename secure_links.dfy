/** "Secure external links": every anchor that opens in a new browsing context
    (`target="_blank"`, in any letter case) gets `noopener` and `noreferrer` in its
    `rel` attribute. */
module SecureLinks {
  import opened Strings

  /** An anchor element, reduced to the two attributes the normalisation reads.
      `rel` is the DOM property, which reads as "" when the attribute is absent. */
  datatype Anchor = Anchor(target: string, rel: string)

  /** First step: append "noopener", separated by a space only when rel is not empty.
      It only ever appends, and at most the nine characters of " noopener". */
  function AddNoopener(rel: string): (r: string)
    ensures |rel| <= |r| <= |rel| + |" noopener"|
  {
    if !Includes(rel, "noopener") then rel + (if rel != "" then " " else "") + "noopener" else rel
  }

  /** Second step: append " noreferrer" unless the text is already there. It adds
      either nothing or exactly the eleven characters of " noreferrer". */
  function AddNoreferrer(rel: string): (r: string)
    ensures |r| == |rel| || |r| == |rel| + |" noreferrer"|
  {
    if !Includes(rel, "noreferrer") then rel + " noreferrer" else rel
  }

  /** The first step leaves "noopener" in rel, and appends only when it was missing. */
  lemma AddNoopenerGuarantees(rel: string)
    ensures Includes(AddNoopener(rel), "noopener")
    ensures Includes(rel, "noopener") ==> AddNoopener(rel) == rel
    ensures !Includes(rel, "noopener") ==>
      AddNoopener(rel) == rel + (if rel == "" then "" else " ") + "noopener"
  {
    IncludesSuffix(rel + (if rel != "" then " " else ""), "noopener");
  }

  /** The second step leaves "noreferrer" in rel, keeps any "noopener", and appends
      only when "noreferrer" was missing. */
  lemma AddNoreferrerGuarantees(rel: string)
    ensures Includes(AddNoreferrer(rel), "noreferrer")
    ensures Includes(rel, "noopener") ==> Includes(AddNoreferrer(rel), "noopener")
    ensures Includes(rel, "noreferrer") ==> AddNoreferrer(rel) == rel
  {
    if !Includes(rel, "noreferrer") {
      IncludesSuffix(rel + " ", "noreferrer");
      assert rel + " " + "noreferrer" == rel + " noreferrer";
      if Includes(rel, "noopener") {
        IncludesAppend(rel, " noreferrer", "noopener");
      }
    }
  }

  /** The rel value after normalisation: "noopener" added first, then "noreferrer".
      The two appends together add at most twenty characters. */
  function SecureRel(rel: string): (r: string)
    ensures |rel| <= |r| <= |rel| + |" noopener"| + |" noreferrer"|
  {
    AddNoreferrer(AddNoopener(rel))
  }

  /** After normalisation both tokens are present, and nothing is appended for a
      token whose text is already there. */
  lemma SecureRelGuarantees(rel: string)
    ensures Includes(SecureRel(rel), "noopener") && Includes(SecureRel(rel), "noreferrer")
    ensures Includes(rel, "noopener") ==>
      SecureRel(rel) == rel || SecureRel(rel) == rel + " noreferrer"
    ensures Includes(rel, "noreferrer") ==>
      SecureRel(rel) == rel || SecureRel(rel) == rel + " noopener"
    ensures Includes(rel, "noopener") && Includes(rel, "noreferrer") ==> SecureRel(rel) == rel
  {
    var withOpener := AddNoopener(rel);
    AddNoopenerGuarantees(rel);
    AddNoreferrerGuarantees(withOpener);
    if Includes(rel, "noreferrer") && !Includes(rel, "noopener") {
      assert rel != "";
      IncludesAppend(rel, " noopener", "noreferrer");
      assert withOpener == rel + " noopener";
    }
  }

  /** The selector `a[target="_blank"]`. In an HTML document an attribute selector
      on `target` compares the value ASCII case-insensitively, so "_BLANK" and
      "_Blank" are selected too; no other value is. A selected value is six
      characters long and starts with the underscore. */
  predicate OpensNewContext(target: string): (b: bool)
    ensures b ==> |target| == 6 && target[0] == '_'
  {
    AsciiLower(target) == "_blank"
  }

  /** Every letter-case spelling of "_blank" is selected; other values, including
      near misses, are not. */
  lemma OpensNewContextSpellings()
    ensures OpensNewContext("_blank") && OpensNewContext("_BLANK") && OpensNewContext("_Blank")
    ensures !OpensNewContext("_self") && !OpensNewContext("blank") && !OpensNewContext("_blank ")
  {
  }

  /** What the script does to one anchor: only selected anchors are touched, and
      only their rel changes. */
  function Secured(a: Anchor): (b: Anchor)
    ensures b.target == a.target
    ensures !OpensNewContext(a.target) ==> b == a
  {
    if OpensNewContext(a.target) then a.(rel := SecureRel(a.rel)) else a
  }

  /** Only new-context anchors change, and those end up with both tokens. */
  lemma SecuredOnlyBlank(a: Anchor)
    ensures Secured(a).target == a.target
    ensures OpensNewContext(a.target) ==>
      Includes(Secured(a).rel, "noopener") && Includes(Secured(a).rel, "noreferrer")
    ensures !OpensNewContext(a.target) ==> Secured(a) == a
  {
    SecureRelGuarantees(a.rel);
  }

  /** The normalisation only appends: the original rel survives as a prefix. */
  lemma SecureRelKeepsPrefix(rel: string)
    ensures |rel| <= |SecureRel(rel)| && SecureRel(rel)[..|rel|] == rel
  {
    AddNoopenerGuarantees(rel);
    AddNoreferrerGuarantees(AddNoopener(rel));
    var sep := if rel == "" then "" else " ";
    var withOpener := AddNoopener(rel);
    assert withOpener == rel || withOpener == rel + (sep + "noopener");
    assert SecureRel(rel) == withOpener || SecureRel(rel) == withOpener + " noreferrer";
  }

  /** Normalising an already normalised rel changes nothing. */
  lemma SecureRelIdempotent(rel: string)
    ensures SecureRel(SecureRel(rel)) == SecureRel(rel)
  {
    SecureRelGuarantees(rel);
    SecureRelGuarantees(SecureRel(rel));
  }

  /** The callback's two statements for one anchor: append "noopener" unless the
      text is there, then append " noreferrer" unless that text is there. */
  method NormaliseRel(rel0: string) returns (rel: string)
    ensures rel == SecureRel(rel0)
  {
    rel := rel0;
    if !Includes(rel, "noopener") {
      rel := rel + (if rel != "" then " " else "") + "noopener";
    }
    if !Includes(rel, "noreferrer") {
      rel := rel + " noreferrer";
    }
  }

  /** The forEach callback for one anchor of the selection. */
  method SecureAnchor(a: Anchor) returns (b: Anchor)
    ensures b == Secured(a)
  {
    b := a;
    if OpensNewContext(a.target) {
      var rel := NormaliseRel(a.rel);
      b := a.(rel := rel);
    }
  }

  /** The forEach over `a[target="_blank"]`: rewrites the rel of exactly the
      selected anchors, in place, and leaves every other anchor as it was. */
  method SecureExternalLinks(anchors: array<Anchor>)
    modifies anchors
    ensures forall k :: 0 <= k < anchors.Length ==>
      anchors[k] == Secured(old(anchors[k]))
  {
    var i := 0;
    while i < anchors.Length
      invariant 0 <= i <= anchors.Length
      invariant forall k :: 0 <= k < i ==> anchors[k] == Secured(old(anchors[k]))
      invariant forall k :: i <= k < anchors.Length ==> anchors[k] == old(anchors[k])
    {
      anchors[i] := SecureAnchor(anchors[i]);
      i := i + 1;
    }
  }
}
