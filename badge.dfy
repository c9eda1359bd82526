/** The tooltip text of the verification badge, built from the verifier list. */
module Badge {
  import opened JsStrings

  /** Opens the tooltip when several users verified the profile. */
  const ListPrefix: string := "Verified by: "

  /** Opens the tooltip otherwise. */
  const SinglePrefix: string := "Verified by "

  /** What a template literal renders for a missing array element. */
  const Undefined: string := "undefined"

  /** The badge title: with more than one verifier, all their handles joined by ", " after
      `ListPrefix`; otherwise the first handle after `SinglePrefix` (the text "undefined" for an
      empty list, which the script never displays). */
  function TooltipText(verifierHandles: seq<string>): (text: string)
    ensures |verifierHandles| > 1 ==> ListPrefix <= text
    ensures |verifierHandles| <= 1 ==> SinglePrefix <= text
  {
    if |verifierHandles| > 1 then ListPrefix + Join(verifierHandles, ", ")
    else SinglePrefix + (if |verifierHandles| == 1 then verifierHandles[0] else Undefined)
  }

  /** Reads the verifier list back out of a tooltip: the character after "Verified by" tells the
      two forms apart. */
  function ParseTooltip(text: string): seq<string>
  {
    if |text| >= |ListPrefix| && text[|SinglePrefix| - 1] == ':' then Split(text[|ListPrefix|..], ", ")
    else if |text| >= |SinglePrefix| then [text[|SinglePrefix|..]]
    else []
  }

  /** The tooltip names every verifier, in list order and with repetitions, and nothing else: as
      long as no handle holds a ',' (a handle is a domain name), the list can be read back from it. */
  lemma TooltipListsVerifiers(verifierHandles: seq<string>)
    requires |verifierHandles| > 0
    requires forall i :: 0 <= i < |verifierHandles| ==> ',' !in verifierHandles[i]
    ensures ParseTooltip(TooltipText(verifierHandles)) == verifierHandles
  {
    var text := TooltipText(verifierHandles);
    if |verifierHandles| > 1 {
      var body := Join(verifierHandles, ", ");
      assert text[|ListPrefix|..] == body;
      assert text[|SinglePrefix| - 1] == ListPrefix[|SinglePrefix| - 1] == ':';
      SplitJoin(verifierHandles, ", ");
    } else {
      assert text[|SinglePrefix|..] == verifierHandles[0];
      assert text[|SinglePrefix| - 1] == SinglePrefix[|SinglePrefix| - 1] == ' ';
    }
  }
}
