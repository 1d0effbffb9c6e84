/** Pieces of the game: the abstract Java class `Piece` with its two
    subclasses becomes one tagged union. */
module Pieces {

  /** The three colour strings the program ever builds: "white", "black"
      and "none" (the colour of the empty-square marker). */
  datatype Color = White | Black | NoColor

  /** A mover ("knight") or a ball, each with its owner colour and id. */
  datatype Piece = Knight(color: Color, id: int) | Ball(color: Color, id: int)

  /** An empty square holds exactly one `Knight("none", 0)`. */
  const Marker: Piece := Knight(NoColor, 0)
}
