/** Shapes shared by the store and the account layer: field values, documents,
    where-clauses and the `QueryReturn` envelope every operation resolves to. */
module Datatypes {

  datatype Option<+T> = None | Some(value: T) {
    function GetOr(default: T): T {
      match this
      case Some(v) => v
      case None => default
    }
  }

  datatype Result<+R, +E> = Ok(value: R) | Err(error: E)

  /** A Firestore field value. Numbers are modelled as integers. */
  datatype Value =
    | Null
    | Bool(b: bool)
    | Num(n: int)
    | Str(s: string)
    | Arr(items: seq<Value>)

  /** The fields of one document. */
  type Record = map<string, Value>

  /** The field the layer attaches on every read and strips before every write. */
  const Reference: string := "reference"

  /** The user an identity-provider call resolved with. */
  datatype AuthUser = AuthUser(uid: string, emailVerified: bool)

  datatype Status = Success | Error

  /** What the optional `data` member of an envelope holds. */
  datatype Data =
    | NoData
    | IdData(id: string)
    | DocData(doc: Record)
    | DocsData(docs: seq<Record>)
    | EnvelopesData(items: seq<QueryReturn>)
    | UserData(user: AuthUser)

  /** `{status, message, data?}` */
  datatype QueryReturn = QueryReturn(status: Status, message: string, data: Data)

  /** Firestore's `WhereFilterOp`. */
  datatype Operator =
    | Lt | Le | Eq | Ne | Ge | Gt
    | ArrayContains | ArrayContainsAny | In | NotIn

  /** `{key, operator, value}` */
  datatype WhereClause = WhereClause(key: string, op: Operator, value: Value)

  /** The `type` tag of a clause inside a combined batch. */
  datatype Tag = TagAnd | TagOr

  /** `{key, operator, value, type}` */
  datatype AndOrClause = AndOrClause(key: string, op: Operator, value: Value, tag: Tag)

  /** How `findWhereOrAnd` composes its batch: `'and'`, `'or'` or `'andOr'`. */
  datatype Combine = CombineAnd | CombineOr | CombineAndOr

  /** `wh` of `findWhereOrAnd`: `{type, parameter}` */
  datatype AndOrWhere = AndOrWhere(kind: Combine, parameter: seq<AndOrClause>)

  /** JavaScript truthiness of the optional query arguments. */
  predicate TruthyString(s: Option<string>) { s.Some? && s.value != "" }
  predicate TruthyNumber(n: Option<int>) { n.Some? && n.value != 0 }
}
