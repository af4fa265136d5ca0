/**
 * Go's context.Context as the server uses it: an immutable chain of
 * key/value layers, modelled as one map; and the slog.Logger values that
 * travel in it.
 *
 * Go compares context keys by dynamic type and value, so a key is a pair
 * (key type, integer value): two keys with the same number but declared
 * with different types never collide.
 */
module GoContext {
  import opened Optional

  /** A string-valued slog attribute. */
  datatype Attr = Attr(key: string, value: string)

  /**
   * A *slog.Logger: the process-wide default, or a logger derived from
   * another by slog.With(slog.Group(group, attrs...)).
   */
  datatype Logger = DefaultLogger | WithGroup(base: Logger, group: string, attrs: seq<Attr>)

  /** The Go types used as context keys: ctxKey (request_id.go), LoggerKey (log_request.go), or another package's type. */
  datatype KeyType = CtxKeyType | LoggerKeyType | ForeignKeyType(name: string)

  datatype Key = Key(keyType: KeyType, value: int)

  /** What a context can hold: a string, a *slog.Logger, or a value of any other type. */
  datatype Value = StringValue(s: string) | LoggerValue(logger: Logger) | OtherValue(typeName: string)

  /** A possibly nil context; a non-nil one maps each key to the value of its nearest layer. */
  datatype Context = Nil | Ctx(values: map<Key, Value>)

  /** context.Background(): non-nil and empty. */
  const Background: Context := Ctx(map[])

  /** ctx.Value(key) on a non-nil context; None stands for Go's nil interface. */
  function Lookup(ctx: Context, key: Key): Option<Value>
    requires ctx.Ctx?
  {
    if key in ctx.values then Some(ctx.values[key]) else None
  }

  /**
   * context.WithValue(parent, key, val): a new layer over parent. Go panics
   * on a nil parent, hence the precondition. The parent itself is a value
   * and is left as it was.
   */
  function WithValue(parent: Context, key: Key, val: Value): (child: Context)
    requires parent.Ctx?
    ensures child.Ctx?
    ensures Lookup(child, key) == Some(val)
    ensures forall k :: k != key ==> Lookup(child, k) == Lookup(parent, k)
  {
    Ctx(parent.values[key := val])
  }
}
