/** The two entities the stock controller works on, as the database rows it reads and writes. */
module Models {

  /** A value that may be absent; stands for a C# reference that may be `null`. */
  datatype Option<+T> = None | Some(value: T)

  const TwoTo32: int := 0x1_0000_0000

  /** The C# `int` type (System.Int32). */
  newtype int32 = x: int | -0x8000_0000 <= x < 0x8000_0000

  /** C# `a + b` on two `int` values in the default unchecked context: the sum wraps
      around modulo 2^32 into the Int32 range. */
  function WrappingAdd(a: int32, b: int32): (r: int32)
    ensures (r as int - (a as int + b as int)) % TwoTo32 == 0
    ensures -0x8000_0000 <= a as int + b as int < 0x8000_0000 ==> r as int == a as int + b as int
  {
    var sum := a as int + b as int;
    if sum >= 0x8000_0000 then (sum - TwoTo32) as int32
    else if sum < -0x8000_0000 then (sum + TwoTo32) as int32
    else sum as int32
  }

  /** One row of the `Stocks` table: a stock movement of one product.
      `fechaMovimiento` is a point in time, counted in clock ticks. */
  datatype Stock = Stock(
    fkProducto: int32,
    stockInicial: int32,
    stockActual: int32,
    stockMinimo: int32,
    stockMaximo: int32,
    tipoMovimiento: Option<string>,
    fechaMovimiento: nat)

  /** One row of the `Productos` table, reduced to the columns the controller uses.
      `foto` is empty, an absolute URL or an image-host public id. */
  datatype Producto = Producto(
    productoId: int32,
    nombre: Option<string>,
    codigoProducto: Option<string>,
    foto: Option<string>)
}
