/** Failure-carrying results of the shop's service operations.  Every
    business error of the backend is a `BusinessException` with a fixed
    message; here each message is one constructor of `ShopError`. */
module Outcomes {

  datatype Option<+T> = None | Some(value: T)

  datatype ShopError =
    | EmptyCart                         // 购物车为空
    | ProductNotFound                   // 商品不存在
    | InsufficientStockFor(name: string) // <product name> 库存不足 (orders)
    | InsufficientStock                 // 库存不足 (cart)
    | InvalidQuantity                   // 数量必须大于 0
    | CartItemNotFound                  // 购物车项不存在
    | OrderNotFound                     // 订单不存在
    | PaymentForbidden                  // 无权操作该订单
    | ViewForbidden                     // 无权访问此订单
    | NotPending                        // 订单非待支付状态
    | BlankProductName                  // 商品名称不能为空
    | InvalidPrice                      // 商品价格不能为空或负数
    | InvalidStock                      // 商品库存不能为空或负数
    | BlankCredentials                  // 用户名与密码不能为空
    | UsernameTaken                     // 用户名已存在
    | UserNotFound                      // 用户不存在
    | NotLoggedIn                       // 未登录
    | InvalidToken                      // 无效的token

  datatype Result<+T> = Ok(value: T) | Err(error: ShopError)

  /** The message text the backend attaches to each error. */
  function Message(e: ShopError): string
  {
    match e
    case EmptyCart => "购物车为空"
    case ProductNotFound => "商品不存在"
    case InsufficientStockFor(name) => name + " 库存不足"
    case InsufficientStock => "库存不足"
    case InvalidQuantity => "数量必须大于 0"
    case CartItemNotFound => "购物车项不存在"
    case OrderNotFound => "订单不存在"
    case PaymentForbidden => "无权操作该订单"
    case ViewForbidden => "无权访问此订单"
    case NotPending => "订单非待支付状态"
    case BlankProductName => "商品名称不能为空"
    case InvalidPrice => "商品价格不能为空或负数"
    case InvalidStock => "商品库存不能为空或负数"
    case BlankCredentials => "用户名与密码不能为空"
    case UsernameTaken => "用户名已存在"
    case UserNotFound => "用户不存在"
    case NotLoggedIn => "未登录"
    case InvalidToken => "无效的token"
  }
}
