/**
 * src/common/filters/prisma-exception.filter.ts: the mapping from a Prisma
 * known-request error to the HTTP status and message of the response.
 */
module PrismaFilter {
  import opened Common

  /** The parts of a `PrismaClientKnownRequestError` the mapping reads. */
  datatype PrismaError = PrismaError(
    code: string,
    target: Option<seq<string>>,   // `meta.target`, the fields of a violated unique constraint
    cause: Option<string>)          // `meta.cause`

  datatype Mapped = Mapped(status: int, message: string)

  const StatusConflict := 409
  const StatusNotFound := 404
  const StatusBadRequest := 400

  /** `fieldName.replace(/_/g, ' ')` */
  function Readable(field: string): (r: string)
    ensures |r| == |field| && '_' !in r
    ensures forall i :: 0 <= i < |field| ==> r[i] == (if field[i] == '_' then ' ' else field[i])
  {
    seq(|field|, i requires 0 <= i < |field| => if field[i] == '_' then ' ' else field[i])
  }

  /** The first field of the violated constraint, or `field` when none is reported. */
  function ConflictField(target: Option<seq<string>>): string
  {
    if target.Some? && |target.value| > 0 then target.value[0] else "field"
  }

  /** `mapPrismaError(exception)` */
  function MapPrismaError(e: PrismaError): (m: Mapped)
    ensures m.status in {StatusBadRequest, StatusNotFound, StatusConflict}
    ensures m.status == StatusConflict <==> e.code == "P2002"
    ensures m.status == StatusNotFound <==> e.code == "P2025"
    ensures e.code == "P2002" ==> m.message == Readable(ConflictField(e.target)) + " is already in use"
    ensures e.code == "P2025" ==> m.message == (if e.cause.Some? then e.cause.value else "Record not found")
    ensures e.code == "P2003" ==> m.message == "Related record not found"
    ensures e.code == "P2014" ==> m.message == "Required relation violation"
    ensures e.code !in {"P2002", "P2025", "P2003", "P2014"} ==> m == Mapped(StatusBadRequest, "Database operation failed")
  {
    match e.code
    case "P2002" => Mapped(StatusConflict, Readable(ConflictField(e.target)) + " is already in use")
    case "P2025" => Mapped(StatusNotFound, if e.cause.Some? then e.cause.value else "Record not found")
    case "P2003" => Mapped(StatusBadRequest, "Related record not found")
    case "P2014" => Mapped(StatusBadRequest, "Required relation violation")
    case _ => Mapped(StatusBadRequest, "Database operation failed")
  }

  /** A unique-constraint message names the field with its underscores spelled as spaces. */
  lemma ConflictMessageHasNoUnderscore(e: PrismaError)
    requires e.code == "P2002"
    ensures var m := MapPrismaError(e);
      var field := ConflictField(e.target);
      && m.message[..|field|] == Readable(field)
      && '_' !in m.message[..|field|]
      && m.message[|field|..] == " is already in use"
  {
    var field := ConflictField(e.target);
    var m := MapPrismaError(e);
    assert m.message == Readable(field) + " is already in use";
  }

  /** Without reported targets the message falls back to the word `field`. */
  lemma NoTargetFallsBack(e: PrismaError)
    requires e.code == "P2002" && (e.target.None? || e.target.value == [])
    ensures MapPrismaError(e) == Mapped(StatusConflict, "field is already in use")
  {
    var readable := Readable("field");
    assert readable == "field" by {
      assert forall i :: 0 <= i < 5 ==> readable[i] == "field"[i];
    }
    assert "field" + " is already in use" == "field is already in use";
  }
}
