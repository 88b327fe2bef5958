/** Who wrote a chat message: both chat front-ends tag messages 'user' or 'ai'. */
module Chat {
  datatype Role = User | Ai
}
