/** Record shapes from hpgl_obj.h: a parsed HPGL command and a plot object.
    The header declares the parser, the line-list generator and the
    serialiser but their bodies are not part of this model, so a plot
    object is a plain value here and its per-command serialisation and
    travel distance are supplied from outside (see MainWindowLogic). */
module HpglTypes {

  /** QPoint: integer coordinates in HPGL units (1/1016 inch). */
  datatype Point = Point(x: int, y: int)

  /** QLine: a segment between two points. */
  datatype Line = Line(p1: Point, p2: Point)

  /** hpgl_cmd: a two-letter opcode, its coordinate list and the pen
      state after it. */
  datatype HpglCmd = HpglCmd(opcode: string, coordList: seq<Point>, pen: int)

  /** QTransform, kept as an opaque 3x3 matrix: the model stores and
      copies transforms but never computes with them. */
  datatype Transform = Transform(m11: real, m12: real, m13: real,
                                 m21: real, m22: real, m23: real,
                                 m31: real, m32: real, m33: real)

  /** hpgl_obj: the command list, the three transforms and the derived
      line lists and extents. */
  datatype HpglObj = HpglObj(
    cmdList: seq<HpglCmd>,
    cmdTransformScale: Transform,
    cmdTransformRotate: Transform,
    cmdTransformTranslate: Transform,
    lineListUp: seq<Line>,
    lineListDown: seq<Line>,
    width: int,
    height: int)
}
