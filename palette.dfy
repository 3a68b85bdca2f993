/** The fixed colour per pitch-type code used for the scatter series. */
module Palette {

  /** The colour of every code the table does not list. */
  const Default: string := "#999999"

  /** `pitch_color_dict`: thirteen known pitch-type codes and their colours. */
  const Table: map<string, string> := map[
    "FF" := "#D22D49", "FT" := "#DE6A04", "SI" := "#FE9D00", "FC" := "#933F2C",
    "CH" := "#1DBE3A", "FS" := "#3BACAC", "SC" := "#60DB33", "FO" := "#55CCAB",
    "ST" := "#DDB33A", "SL" := "#EEE716", "CU" := "#00D1ED", "KC" := "#6236CD",
    "KN" := "#3C44CD"
  ]

  /** `pitch_color_dict.get(code, '#999999')`: defined for every code; a code
      gets the neutral grey exactly when the table does not list it. */
  function ColorOf(code: string): (color: string)
    ensures code in Table ==> color == Table[code]
    ensures color == Default <==> code !in Table
  {
    if code in Table then Table[code] else Default
  }

  /** The colour list built alongside the pitch-type list: one colour per
      type, at the same position. */
  function Colors(codes: seq<string>): (colors: seq<string>)
    ensures |colors| == |codes|
    ensures forall i :: 0 <= i < |codes| ==> colors[i] == ColorOf(codes[i])
  {
    if codes == [] then [] else [ColorOf(codes[0])] + Colors(codes[1..])
  }

  /** No two listed codes share a colour, so a listed code's colour names it. */
  lemma TableColorsDistinct(a: string, b: string)
    requires a in Table && b in Table && a != b
    ensures ColorOf(a) != ColorOf(b)
  {
  }
}
