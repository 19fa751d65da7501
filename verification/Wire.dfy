/**
 What the server reads through a parameter binding, and what the caller put into the parameter.  The
 types are the numbers of the two client libraries, and of the drivers' own enumeration.
 */
module Wire {
  import opened NativeServer
  import opened Basics

  /** The first `n` bytes; what lies behind the text is not the caller's. */
  function Front(text: string, n: int): string {
    if n <= 0 then "" else text[..Min(n, |text|)]
  }

  /**
   MySQL takes 4 bytes for type 3 and 8 bytes for type 8, and for any other type as many as the length
   cell says, or the size of the buffer where there is no such cell; NULL where there is no buffer.
   */
  function MysqlReads(b: Bind): Option<string> {
    if b.buffer.Null? then None
    else if b.ty == 3 then Some(Front(b.buffer.text, 4))
    else if b.ty == 8 then Some(Front(b.buffer.text, 8))
    else Some(Front(b.buffer.text, if b.length.Some? then b.length.value else b.size))
  }

  /** OCI takes as many bytes as the binding says, whatever the type. */
  function OciReads(b: Bind): Option<string> {
    if b.buffer.Null? then None else Some(Front(b.buffer.text, b.size))
  }

  /** What the caller stored in a parameter: an int, a long long, a C string, or `len` bytes. */
  function Meant(ty: int, len: int, data: Pointer): string
    requires data.To?
  {
    if ty == 2 then Front(data.text, 4)
    else if ty == 4 then Front(data.text, 8)
    else if ty == 9 then TextIn(data.text)
    else Front(data.text, len)
  }

  /** The number that MySQL has for a type of the drivers: LONG, LONGLONG, STRING or BLOB. */
  function MysqlType(ty: int): int {
    if ty == 2 then 3 else if ty == 4 then 8 else if ty == 9 then 254 else 252
  }

  lemma FrontIsText(text: string)
    ensures Front(text, |TextIn(text)|) == TextIn(text)
    ensures Terminated(text) ==> Front(text, |TextIn(text)| + 1) == TextIn(text) + [NUL]
    ensures !Terminated(text) ==> Front(text, |TextIn(text)| + 1) == TextIn(text)
  {
    TextInLength(text);
  }
}
